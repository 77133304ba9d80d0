/** The string operations the desktop code normalises its inputs with, on ASCII text. */
module Text {
  function LowerChar(c: char): char {
    if 'A' <= c <= 'Z' then c + ' ' else c
  }

  function ToLower(s: string): (r: string)
    ensures |r| == |s|
  {
    if s == "" then "" else [LowerChar(s[0])] + ToLower(s[1..])
  }

  /** Blank, tab, line feed, vertical tab, form feed and carriage return. */
  predicate IsSpace(c: char) {
    c in {' ', '\t', '\n', '\U{0B}', '\U{0C}', '\r'}
  }

  function TrimLeft(s: string): string {
    if s != "" && IsSpace(s[0]) then TrimLeft(s[1..]) else s
  }

  function TrimRight(s: string): string {
    if s != "" && IsSpace(s[|s| - 1]) then TrimRight(s[..|s| - 1]) else s
  }

  function TrimSpace(s: string): string {
    TrimRight(TrimLeft(s))
  }

  predicate Blank(s: string) {
    forall c <- s :: IsSpace(c)
  }

  predicate SolidEnds(t: string) {
    t == "" || (!IsSpace(t[0]) && !IsSpace(t[|t| - 1]))
  }

  /** What is left after taking blanks off both ends, none being left to take. */
  ghost predicate IsTrimOf(t: string, s: string) {
    SolidEnds(t) && exists before, after :: s == before + t + after && Blank(before) && Blank(after)
  }

  lemma TrimSplits(s: string) returns (before: string, after: string)
    ensures s == before + TrimSpace(s) + after && Blank(before) && Blank(after) && SolidEnds(TrimSpace(s))
  {
    hide TrimLeft, TrimRight, Blank;
    before := LeftBlanks(s);
    var u := TrimLeft(s);
    after := RightBlanks(u);
    var v := TrimRight(u);
    if v != "" {
      assert v[0] == u[0];
    }
    assert before + (v + after) == before + v + after;
  }

  lemma TrimTakesBlanks(before: string, t: string, after: string)
    requires Blank(before) && Blank(after) && SolidEnds(t)
    ensures TrimSpace(before + t + after) == t
  {
    hide TrimLeft, TrimRight;
    if t == "" {
      assert before + t + after == (before + after) + "";
      DropLeft(before + after, "");
      DropRight("", "");
      assert "" + "" == "";
    } else {
      assert before + t + after == before + (t + after);
      DropLeft(before, t + after);
      DropRight(t, after);
    }
  }

  /** Trimming removes exactly the surrounding white space. */
  lemma TrimmedIff(s: string, t: string)
    ensures t == TrimSpace(s) <==> IsTrimOf(t, s)
  {
    hide TrimSpace, Blank, SolidEnds;
    var before, after := TrimSplits(s);
    if IsTrimOf(t, s) {
      var b, a :| s == b + t + a && Blank(b) && Blank(a);
      TrimTakesBlanks(b, t, a);
    }
  }

  lemma {:induction false} LeftBlanks(s: string) returns (before: string)
    ensures s == before + TrimLeft(s) && Blank(before)
    ensures TrimLeft(s) != "" ==> !IsSpace(TrimLeft(s)[0])
    decreases s
  {
    if s != "" && IsSpace(s[0]) {
      var rest := LeftBlanks(s[1..]);
      before := [s[0]] + rest;
    } else {
      before := "";
    }
  }

  lemma {:induction false} RightBlanks(s: string) returns (after: string)
    ensures s == TrimRight(s) + after && Blank(after)
    ensures TrimRight(s) != "" ==> !IsSpace(TrimRight(s)[|TrimRight(s)| - 1])
    decreases s
  {
    if s != "" && IsSpace(s[|s| - 1]) {
      var rest := RightBlanks(s[..|s| - 1]);
      after := rest + [s[|s| - 1]];
    } else {
      after := "";
    }
  }

  lemma {:induction false} DropLeft(before: string, t: string)
    requires Blank(before) && (t == "" || !IsSpace(t[0]))
    ensures TrimLeft(before + t) == t
  {
    if before == "" {
      assert before + t == t;
    } else {
      assert before[0] in before && forall c <- before[1..] :: c in before;
      assert (before + t)[1..] == before[1..] + t;
      DropLeft(before[1..], t);
    }
  }

  lemma {:induction false} DropRight(t: string, after: string)
    requires Blank(after) && (t == "" || !IsSpace(t[|t| - 1]))
    ensures TrimRight(t + after) == t
    decreases after
  {
    if after == "" {
      assert t + after == t;
    } else {
      var shorter, c := after[..|after| - 1], after[|after| - 1];
      assert c in after && forall d <- shorter :: d in after;
      assert (t + after)[..|t + after| - 1] == t + shorter;
      DropRight(t, shorter);
    }
  }

  /** Blanks around a text make no difference to what is left of it. */
  lemma BlanksAroundDoNotMatter(before: string, s: string, after: string)
    requires Blank(before) && Blank(after)
    ensures TrimSpace(before + s + after) == TrimSpace(s)
  {
    hide TrimSpace, SolidEnds;
    var t := TrimSpace(s);
    var b, a := TrimSplits(s);
    assert before + s + after == (before + b) + t + (a + after);
    TrimTakesBlanks(before + b, t, a + after);
  }

  lemma {:induction false} LowerAt(s: string, i: nat)
    requires i < |s|
    ensures ToLower(s)[i] == LowerChar(s[i])
  {
    if i > 0 {
      LowerAt(s[1..], i - 1);
    }
  }

  /** Nothing is left exactly of blanks. */
  lemma BlankIff(s: string)
    ensures TrimSpace(s) == "" <==> Blank(s)
  {
    hide TrimSpace;
    if Blank(s) {
      TrimTakesBlanks(s, "", "");
      assert s + "" + "" == s;
    }
    var before, after := TrimSplits(s);
    if TrimSpace(s) == "" {
      assert s == before + after;
    }
  }
}
