/** Blank characters and the trimming of a text. */
module Text {

  predicate IsSpace(c: char) {
    c == ' ' || c == '\t' || c == '\n' || c == '\r'
  }

  function StripLeft(t: string): string {
    if t != "" && IsSpace(t[0]) then StripLeft(t[1..]) else t
  }

  function StripRight(t: string): string {
    if t != "" && IsSpace(t[|t| - 1]) then StripRight(t[..|t| - 1]) else t
  }

  function Strip(t: string): string {
    StripRight(StripLeft(t))
  }

  predicate AllBlank(t: string) {
    forall i :: 0 <= i < |t| ==> IsSpace(t[i])
  }

  lemma {:induction false} StripRightAt(t: string, e: nat)
    requires e <= |t| && AllBlank(t[e..]) && (e == 0 || !IsSpace(t[e - 1]))
    ensures StripRight(t) == t[..e]
  {
    if e < |t| {
      var init := t[..|t| - 1];
      assert IsSpace(t[e..][|t| - 1 - e]);
      assert AllBlank(init[e..]) by {
        assert forall i :: 0 <= i < |init[e..]| ==> init[e..][i] == t[e..][i];
      }
      StripRightAt(init, e);
    } else {
      assert t[..e] == t;
    }
  }

  lemma {:induction false} StripLeftAt(blanks: string, t: string)
    requires AllBlank(blanks) && (t == "" || !IsSpace(t[0]))
    ensures StripLeft(blanks + t) == t
  {
    if blanks == "" {
      assert blanks + t == t;
    } else {
      assert (blanks + t)[0] == blanks[0] && (blanks + t)[1..] == blanks[1..] + t;
      StripLeftAt(blanks[1..], t);
    }
  }

  /** The blanks around a text fall away, and nothing inside it does. */
  lemma {:induction false} StripIs(before: string, t: string, after: string)
    requires AllBlank(before) && AllBlank(after)
    requires t != "" && !IsSpace(t[0]) && !IsSpace(t[|t| - 1])
    ensures Strip(before + t + after) == t
  {
    assert before + t + after == before + (t + after);
    StripLeftAt(before, t + after);
    assert (t + after)[|t|..] == after && (t + after)[|t| - 1] == t[|t| - 1];
    StripRightAt(t + after, |t|);
  }

  lemma {:induction false} StripOfBlanks(t: string)
    requires AllBlank(t)
    ensures Strip(t) == ""
  {
    assert t + "" == t;
    StripLeftAt(t, "");
  }
}
