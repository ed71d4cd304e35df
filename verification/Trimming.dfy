/** Removing the white space around a value, and putting letters in lower case. */
module Trimming {
  predicate IsSpace(c: char) {
    || c in {'\t', '\n', '\U{0B}', '\U{0C}', '\r', ' ', '\U{85}', '\U{A0}', '\U{1680}', '\U{2028}', '\U{2029}',
             '\U{202F}', '\U{205F}', '\U{3000}'}
    || '\U{2000}' <= c <= '\U{200A}'
  }

  /** The characters that count as white space, by number. */
  lemma SpacesByNumber(c: char)
    ensures IsSpace(c) <==>
              || 9 <= c as int <= 13 || c as int == 0x20 || c as int == 0x85 || c as int == 0xA0
              || c as int == 0x1680 || 0x2000 <= c as int <= 0x200A
              || 0x2028 <= c as int <= 0x2029 || c as int == 0x202F || c as int == 0x205F || c as int == 0x3000
  {
  }

  predicate Blank(s: string) {
    forall c <- s :: IsSpace(c)
  }

  function TrimLeft(s: string): string {
    if s != [] && IsSpace(s[0]) then TrimLeft(s[1..]) else s
  }

  function TrimRight(s: string): string {
    if s != [] && IsSpace(s[|s| - 1]) then TrimRight(s[..|s| - 1]) else s
  }

  function Trim(s: string): string {
    TrimRight(TrimLeft(s))
  }

  lemma {:induction false} TrimLeftDropsBlank(blank: string, s: string)
    requires Blank(blank)
    ensures TrimLeft(blank + s) == TrimLeft(s)
  {
    if blank == [] {
      assert blank + s == s;
    } else {
      assert (blank + s)[1..] == blank[1..] + s;
      assert IsSpace(blank[0]);
      TrimLeftDropsBlank(blank[1..], s);
    }
  }

  lemma {:induction false} TrimRightDropsBlank(s: string, blank: string)
    requires Blank(blank)
    ensures TrimRight(s + blank) == TrimRight(s)
  {
    if blank == [] {
      assert s + blank == s;
    } else {
      var front := blank[..|blank| - 1];
      assert (s + blank)[..|s + blank| - 1] == s + front;
      assert IsSpace(blank[|blank| - 1]);
      assert (s + blank)[|s + blank| - 1] == blank[|blank| - 1];
      TrimRightDropsBlank(s, front);
    }
  }

  lemma {:induction false} TrimLeftKeepsTail(s: string, tail: string)
    ensures TrimLeft(s + tail) == if Blank(s) then TrimLeft(tail) else TrimLeft(s) + tail
    ensures Blank(s) ==> TrimLeft(s) == []
  {
    if s == [] {
      assert s + tail == tail;
    } else {
      assert (s + tail)[1..] == s[1..] + tail;
      assert s == [s[0]] + s[1..];
      if IsSpace(s[0]) {
        TrimLeftKeepsTail(s[1..], tail);
        assert Blank(s) <==> Blank(s[1..]);
      }
    }
  }

  /** Spaces around a value do not matter. */
  lemma PaddingIsIgnored(before: string, s: string, after: string)
    requires Blank(before) && Blank(after)
    ensures Trim(before + s + after) == Trim(s)
  {
    assert before + s + after == before + (s + after);
    TrimLeftDropsBlank(before, s + after);
    TrimLeftKeepsTail(s, after);
    if Blank(s) {
      TrimLeftKeepsTail(after, []);
      assert after + [] == after;
    } else {
      TrimRightDropsBlank(TrimLeft(s), after);
    }
  }

  lemma {:induction false} TrimLeftMeans(s: string)
    ensures TrimLeft(s) == [] || !IsSpace(TrimLeft(s)[0])
    ensures TrimLeft(TrimLeft(s)) == TrimLeft(s)
  {
    if s != [] && IsSpace(s[0]) {
      TrimLeftMeans(s[1..]);
    }
  }

  lemma {:induction false} TrimRightMeans(s: string)
    ensures TrimRight(s) == [] || !IsSpace(TrimRight(s)[|TrimRight(s)| - 1])
    ensures TrimRight(s) != [] ==> s != [] && TrimRight(s)[0] == s[0]
    ensures TrimRight(TrimRight(s)) == TrimRight(s)
  {
    if s != [] && IsSpace(s[|s| - 1]) {
      TrimRightMeans(s[..|s| - 1]);
    }
  }

  /** Trimming a trimmed value changes nothing. */
  lemma TrimTwice(s: string)
    ensures Trim(Trim(s)) == Trim(s)
  {
    TrimLeftMeans(s);
    TrimRightMeans(TrimLeft(s));
  }

  lemma {:induction false} TrimLeftSplits(s: string) returns (blank: string)
    ensures Blank(blank) && s == blank + TrimLeft(s)
  {
    hide IsSpace;
    if s != [] && IsSpace(s[0]) {
      var rest := TrimLeftSplits(s[1..]);
      blank := [s[0]] + rest;
    } else {
      blank := [];
    }
  }

  lemma {:induction false} TrimRightSplits(s: string) returns (blank: string)
    ensures Blank(blank) && s == TrimRight(s) + blank
  {
    hide IsSpace;
    if s != [] && IsSpace(s[|s| - 1]) {
      var rest := TrimRightSplits(s[..|s| - 1]);
      blank := rest + [s[|s| - 1]];
    } else {
      blank := [];
    }
  }

  /** Trimming takes nothing but blanks off a value, and none is left at either end; a blank value comes to nothing. */
  lemma TrimMeans(s: string) returns (before: string, after: string)
    ensures Blank(before) && Blank(after) && s == before + Trim(s) + after
    ensures Trim(s) != "" ==> !IsSpace(Trim(s)[0]) && !IsSpace(Trim(s)[|Trim(s)| - 1])
    ensures Trim(s) == "" <==> Blank(s)
  {
    before := TrimLeftSplits(s);
    after := TrimRightSplits(TrimLeft(s));
    TrimLeftMeans(s);
    TrimRightMeans(TrimLeft(s));
    TrimLeftKeepsTail(s, []);
    assert s + [] == s;
    if Trim(s) == "" {
      assert s == before + after;
    }
  }

  function LowerChar(c: char): char {
    if 'A' <= c <= 'Z' then c - 'A' + 'a' else c
  }

  function Lower(s: string): (lower: string)
    ensures |lower| == |s| && forall i :: 0 <= i < |s| ==> lower[i] == LowerChar(s[i])
  {
    seq(|s|, i requires 0 <= i < |s| => LowerChar(s[i]))
  }

  /** Lower case moves the twenty-six capitals by 32 and nothing else. */
  lemma LettersMove(c: char)
    ensures LowerChar(c) as int == if 65 <= c as int < 65 + 26 then c as int + 32 else c as int
  {
  }

  lemma LowerIsStable(s: string)
    ensures Lower(Lower(s)) == Lower(s)
  {
  }
}
