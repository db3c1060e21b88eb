/**
 Greedy word wrapping for the terminal report, with truncation to six lines.
 */
module Wrap {
  import opened Text
  import Decimal

  predicate IsWord(w: string) {
    w != "" && forall i :: 0 <= i < |w| ==> !IsSpace(w[i])
  }

  predicate AreWords(ws: seq<string>) {
    forall w :: w in ws ==> IsWord(w)
  }

  /** The length of the run of non-blank characters a text starts with. */
  function WordEnd(t: string): (n: nat)
    ensures n <= |t| && forall i :: 0 <= i < n ==> !IsSpace(t[i])
    ensures n < |t| ==> IsSpace(t[n])
  {
    if t == "" || IsSpace(t[0]) then 0 else 1 + WordEnd(t[1..])
  }

  /** The words of a text. */
  function Split(t: string): (ws: seq<string>)
    ensures AreWords(ws)
    decreases |t|
  {
    if t == "" then []
    else if IsSpace(t[0]) then Split(t[1..])
    else [t[..WordEnd(t)]] + Split(t[WordEnd(t)..])
  }

  lemma {:induction false} WordEndsAtBlank(a: string, c: char, b: string)
    requires IsSpace(c)
    ensures WordEnd(a + [c] + b) == WordEnd(a)
  {
    var s, n := a + [c] + b, WordEnd(a);
    assert forall i :: 0 <= i < |a| ==> s[i] == a[i];
    assert s[n] == if n < |a| then a[n] else c;
  }

  lemma {:induction false} SplitSkips(c: char, t: string)
    requires IsSpace(c)
    ensures Split([c] + t) == Split(t)
  {
    assert ([c] + t)[1..] == t;
  }

  lemma {:induction false} SplitTakes(t: string, n: nat)
    requires t != "" && !IsSpace(t[0]) && n == WordEnd(t)
    ensures 1 <= n && Split(t) == [t[..n]] + Split(t[n..])
  {
  }

  lemma {:induction false} CutAtBlank(a: string, c: char, b: string)
    requires IsSpace(c)
    ensures Split(a + [c] + b) == Split(a) + Split(b)
    decreases |a|
  {
    if a == "" {
      assert a + [c] + b == [c] + b;
      SplitSkips(c, b);
    } else if IsSpace(a[0]) {
      var rest := a[1..];
      assert a == [a[0]] + rest && a + [c] + b == [a[0]] + (rest + [c] + b);
      CutAtBlank(rest, c, b);
      SplitSkips(a[0], rest);
      SplitSkips(a[0], rest + [c] + b);
    } else {
      CutAfterWord(a, c, b, WordEnd(a));
      CutAtBlank(a[WordEnd(a)..], c, b);
    }
  }

  lemma {:induction false} CutAfterWord(a: string, c: char, b: string, n: nat)
    requires IsSpace(c) && a != "" && !IsSpace(a[0]) && n == WordEnd(a)
    ensures 1 <= n <= |a| && Split(a) == [a[..n]] + Split(a[n..])
    ensures Split(a + [c] + b) == [a[..n]] + Split(a[n..] + [c] + b)
  {
    var s := a + [c] + b;
    WordEndsAtBlank(a, c, b);
    SplitTakes(a, n);
    SplitTakes(s, n);
    assert s[..n] == a[..n] && s[n..] == a[n..] + [c] + b;
  }

  /** Words are what stands between blanks: a text is cut at every blank. */
  lemma {:induction false} SplitAtBlanks(a: string, c: char, b: string)
    requires c in [' ', '\t', '\n', '\r']
    ensures Split(a + [c] + b) == Split(a) + Split(b)
  {
    CutAtBlank(a, c, b);
  }

  /** And a stretch without a blank is one word, or none when it is empty. */
  lemma {:induction false} SplitOfOne(w: string)
    requires forall c :: c in w ==> c !in [' ', '\t', '\n', '\r']
    ensures Split(w) == if w == "" then [] else [w]
  {
    if w != "" {
      assert forall i :: 0 <= i < |w| ==> w[i] in w;
      var n := WordEnd(w);
      SplitTakes(w, n);
      assert n == |w| && w[..n] == w && w[n..] == "";
    }
  }

  /** The lines still to come when `cur` is being filled and `words` are left. */
  function Lines(words: seq<string>, cur: string, width: int): seq<string> {
    if words == [] then
      if cur != "" then [cur] else []
    else if |cur| + |words[0]| + 1 > width then
      [cur] + Lines(words[1..], words[0], width)
    else
      Lines(words[1..], Strip(cur + " " + words[0]), width)
  }

  function Note(count: string): string {
    "\U{2026} (" + count + " more lines)"
  }

  /** The six lines kept, and the note counting the lines dropped. */
  function Truncated(lines: seq<string>): seq<string> {
    if |lines| <= 6 then lines
    else lines[..6] + [Note(Decimal.Show(|lines| - 6))]
  }

  /** The note's number is the number of lines that are not shown. */
  lemma {:induction false} TruncationCountsDropped(lines: seq<string>)
    ensures |lines| <= 6 ==> Truncated(lines) == lines
    ensures |lines| > 6 ==>
              && |Truncated(lines)| == 7
              && Truncated(lines)[..6] == lines[..6]
              && exists n: nat :: |lines[6..]| == n && Decimal.Read(Decimal.Show(n)) == n
                               && Truncated(lines)[6] == "\U{2026} (" + Decimal.Show(n) + " more lines)"
  {
    if |lines| > 6 {
      Decimal.RoundTrip(|lines| - 6);
    }
  }

  /** What the next word does to the line in hand. */
  lemma {:induction false} NextWord(words: seq<string>, i: nat, cur: string, width: int)
    requires i < |words|
    ensures Lines(words[i..], cur, width)
            == if |cur| + |words[i]| + 1 > width then [cur] + Lines(words[i + 1..], words[i], width)
               else Lines(words[i + 1..], Strip(cur + " " + words[i]), width)
  {
    assert words[i..][0] == words[i] && words[i..][1..] == words[i + 1..];
  }

  lemma {:induction false} AppendThenRest(out: seq<string>, line: string, rest: seq<string>)
    ensures out + ([line] + rest) == out + [line] + rest
  {
  }

  method WrapText(text: string, width: int) returns (shown: seq<string>)
    ensures shown == Truncated(Lines(Split(text), "", width))
  {
    var words, out, cur := Split(text), [], "";
    for i := 0 to |words|
      invariant out + Lines(words[i..], cur, width) == Lines(words, "", width)
    {
      var w := words[i];
      NextWord(words, i, cur, width);
      if |cur| + |w| + 1 > width {
        AppendThenRest(out, cur, Lines(words[i + 1..], w, width));
        out, cur := out + [cur], w;
      } else {
        cur := Strip(cur + " " + w);
      }
    }
    if cur != "" {
      out := out + [cur];
    }
    shown := if |out| > 6 then out[..6] + [Note(Decimal.Show(|out| - 6))] else out;
  }

  // --- What the lines hold ----------------------------------------------------------------------

  /** Words joined by single blanks. */
  function Join(ws: seq<string>): string {
    if ws == [] then ""
    else if |ws| == 1 then ws[0]
    else Join(ws[..|ws| - 1]) + " " + ws[|ws| - 1]
  }

  function Flatten(groups: seq<seq<string>>): seq<string> {
    if groups == [] then [] else groups[0] + Flatten(groups[1..])
  }

  /** Filling a line that holds some words by one more. */
  lemma {:induction false} StripJoin(ws: seq<string>, w: string)
    requires AreWords(ws) && IsWord(w)
    ensures Strip(Join(ws) + " " + w) == Join(ws + [w])
    ensures Join(ws + [w]) != ""
  {
    var joined := Join(ws) + " " + w;
    assert (ws + [w])[..|ws|] == ws;
    if ws == [] {
      assert joined == " " + w && joined[1..] == w;
      assert StripLeft(joined) == StripLeft(w) == w;
      assert ws + [w] == [w] && Join([w]) == w;
    } else {
      JoinStartsWithLetter(ws);
    }
  }

  lemma {:induction false} JoinStartsWithLetter(ws: seq<string>)
    requires AreWords(ws) && ws != []
    ensures Join(ws) != "" && !IsSpace(Join(ws)[0])
  {
    if |ws| > 1 {
      JoinStartsWithLetter(ws[..|ws| - 1]);
    } else {
      assert ws[0] in ws;
    }
  }

  /** The greedy lines seen as groups of words: the first group starts with the words in hand. */
  function Groups(words: seq<string>, held: seq<string>, width: int): seq<seq<string>> {
    if words == [] then
      if held != [] then [held] else []
    else if |Join(held)| + |words[0]| + 1 > width then
      [held] + Groups(words[1..], [words[0]], width)
    else
      Groups(words[1..], held + [words[0]], width)
  }

  function JoinAll(groups: seq<seq<string>>): (lines: seq<string>)
    ensures |lines| == |groups| && forall i :: 0 <= i < |lines| ==> lines[i] == Join(groups[i])
  {
    seq(|groups|, i requires 0 <= i < |groups| => Join(groups[i]))
  }

  lemma {:induction false} JoinAllCons(g: seq<string>, rest: seq<seq<string>>)
    ensures JoinAll([g] + rest) == [Join(g)] + JoinAll(rest)
  {
  }

  lemma {:induction false} EmptyIffNoWords(held: seq<string>)
    requires AreWords(held)
    ensures |Join(held)| == 0 <==> held == []
  {
    if held != [] {
      JoinStartsWithLetter(held);
    }
  }

  lemma {:induction false} WordsCons(words: seq<string>, held: seq<string>)
    requires AreWords(words) && AreWords(held) && words != []
    ensures AreWords(words[1..]) && AreWords([words[0]]) && AreWords(held + [words[0]])
    ensures Join([words[0]]) == words[0] && IsWord(words[0])
  {
    assert words[0] in words && forall x :: x in words[1..] ==> x in words;
  }

  /** The text of every line is the join of its group. */
  lemma {:induction false} LinesAreGroups(words: seq<string>, held: seq<string>, width: int)
    requires AreWords(words) && AreWords(held)
    ensures Lines(words, Join(held), width) == JoinAll(Groups(words, held, width))
    decreases words
  {
    if words == [] {
      EmptyIffNoWords(held);
    } else {
      var w, rest := words[0], words[1..];
      WordsCons(words, held);
      if |Join(held)| + |w| + 1 > width {
        LinesAreGroups(rest, [w], width);
        JoinAllCons(held, Groups(rest, [w], width));
      } else {
        StripJoin(held, w);
        LinesAreGroups(rest, held + [w], width);
      }
    }
  }

  /** No word is lost, repeated or moved. */
  lemma {:induction false} GroupsKeepOrder(words: seq<string>, held: seq<string>, width: int)
    ensures Flatten(Groups(words, held, width)) == held + words
    decreases words
  {
    if words == [] {
      assert held != [] ==> Flatten([held]) == held + Flatten([]);
    } else {
      var w, rest := words[0], words[1..];
      if |Join(held)| + |w| + 1 > width {
        GroupsKeepOrder(rest, [w], width);
        assert ([held] + Groups(rest, [w], width))[1..] == Groups(rest, [w], width);
        assert [w] + rest == words;
      } else {
        GroupsKeepOrder(rest, held + [w], width);
        assert held + [w] + rest == held + words;
      }
    }
  }

  lemma {:induction false} GroupsFilled(words: seq<string>, held: seq<string>, width: int)
    requires held != []
    ensures Groups(words, held, width) != []
    ensures forall g :: g in Groups(words, held, width) ==> g != []
    decreases words
  {
    if words != [] {
      if |Join(held)| + |words[0]| + 1 > width {
        GroupsFilled(words[1..], [words[0]], width);
      } else {
        GroupsFilled(words[1..], held + [words[0]], width);
      }
    }
  }

  /** Every group but a first empty one holds words. */
  lemma {:induction false} GroupsNonEmpty(words: seq<string>, width: int)
    requires AreWords(words) && words != []
    ensures var groups := Groups(words, [], width);
      && groups != [] && (groups[0] == [] <==> |words[0]| >= width)
      && forall i :: 0 < i < |groups| ==> groups[i] != []
  {
    var groups, filled := Groups(words, [], width), Groups(words[1..], [words[0]], width);
    GroupsFilled(words[1..], [words[0]], width);
    assert groups == if |words[0]| + 1 > width then [[]] + filled else filled by {
      assert [] + [words[0]] == [words[0]];
    }
    forall i | 0 < i < |groups| ensures groups[i] in filled {
    }
    assert filled[0] in filled;
  }

  /** The wrapped text: the words in order, and a blank line only first, when the first word is as
      long as the width. */
  lemma {:induction false} WrapKeepsWords(text: string, width: int)
    ensures var lines, groups := Lines(Split(text), "", width), Groups(Split(text), [], width);
      && lines == JoinAll(groups)
      && Flatten(groups) == Split(text)
      && (forall i :: 0 < i < |lines| ==> lines[i] != "")
      && (lines != [] ==> (lines[0] == "" <==> |Split(text)[0]| >= width))
  {
    var words := Split(text);
    var groups := Groups(words, [], width);
    LinesAreGroups(words, [], width);
    GroupsKeepOrder(words, [], width);
    if words != [] {
      GroupsNonEmpty(words, width);
    }
    assert [] + words == words;
    GroupsHoldWords(words, [], width);
    forall i | 0 <= i < |groups| && groups[i] != [] ensures Join(groups[i]) != "" {
      JoinStartsWithLetter(groups[i]);
    }
  }

  lemma {:induction false} GroupsHoldWords(words: seq<string>, held: seq<string>, width: int)
    requires AreWords(words) && AreWords(held)
    ensures forall g :: g in Groups(words, held, width) ==> AreWords(g)
    decreases words
  {
    if words != [] {
      var w, rest := words[0], words[1..];
      assert w in words && forall x :: x in rest ==> x in words;
      GroupsHoldWords(rest, [w], width);
      GroupsHoldWords(rest, held + [w], width);
    }
  }

  // --- Fitting and minimality -------------------------------------------------------------------

  /** An order-preserving division of the words into lines that fit. */
  ghost predicate ValidSplit(groups: seq<seq<string>>, words: seq<string>, width: int) {
    && Flatten(groups) == words
    && forall g :: g in groups ==> g != [] && AreWords(g) && |Join(g)| <= width
  }

  lemma {:induction false} JoinLength(ws: seq<string>, w: string)
    ensures |Join(ws + [w])| == if ws == [] then |w| else |Join(ws)| + 1 + |w|
  {
    assert (ws + [w])[..|ws|] == ws;
  }

  /** Greedy lines fit when the words do. */
  lemma {:induction false} GroupsFit(words: seq<string>, held: seq<string>, width: int)
    requires AreWords(words) && forall w :: w in words ==> |w| <= width
    requires |Join(held)| <= width
    ensures forall g :: g in Groups(words, held, width) ==> |Join(g)| <= width
    decreases words
  {
    if words != [] {
      var w, rest := words[0], words[1..];
      assert w in words && forall x :: x in rest ==> x in words;
      if |Join(held)| + |w| + 1 > width {
        GroupsFit(rest, [w], width);
      } else {
        JoinLength(held, w);
        GroupsFit(rest, held + [w], width);
      }
    }
  }

  /** How many lines greedy filling still needs when the line in hand is c characters long. */
  function Count(words: seq<string>, c: nat, width: int): nat {
    if words == [] then
      if c > 0 then 1 else 0
    else if c + |words[0]| + 1 > width then 1 + Count(words[1..], |words[0]|, width)
    else Count(words[1..], if c == 0 then |words[0]| else c + 1 + |words[0]|, width)
  }

  lemma {:induction false} CountIsGroups(words: seq<string>, held: seq<string>, width: int)
    requires AreWords(words) && AreWords(held)
    ensures |Groups(words, held, width)| == Count(words, |Join(held)|, width)
    decreases words
  {
    EmptyIffNoWords(held);
    if words != [] {
      var w, rest := words[0], words[1..];
      WordsCons(words, held);
      JoinLength(held, w);
      if |Join(held)| + |w| + 1 > width {
        CountIsGroups(rest, [w], width);
      } else {
        CountIsGroups(rest, held + [w], width);
      }
    }
  }

  /** A fuller line in hand never needs fewer lines, and never saves more than one. */
  lemma {:induction false} CountMonotone(words: seq<string>, c: nat, d: nat, width: int)
    ensures c <= d ==> Count(words, c, width) <= Count(words, d, width)
    ensures Count(words, c, width) <= 1 + Count(words, d, width)
    decreases words
  {
    if words != [] {
      var w, rest := |words[0]|, words[1..];
      var c', d' := if c == 0 then w else c + 1 + w, if d == 0 then w else d + 1 + w;
      CountMonotone(rest, c', d', width);
      CountMonotone(rest, c', w, width);
      CountMonotone(rest, w, d', width);
    }
  }

  /** Words that fit beside the line in hand stay on it. */
  lemma {:induction false} CountAbsorbs(more: seq<string>, rest: seq<string>, held: seq<string>, width: int)
    requires held != [] && AreWords(held) && AreWords(more) && |Join(held + more)| <= width
    ensures Count(more + rest, |Join(held)|, width) == Count(rest, |Join(held + more)|, width)
    decreases more
  {
    if more == [] {
      assert held + more == held && more + rest == rest;
    } else {
      var w, tail := more[0], more[1..];
      assert w in more && forall x :: x in tail ==> x in more;
      assert held + more == held + [w] + tail;
      assert (more + rest)[1..] == tail + rest;
      JoinStartsWithLetter(held);
      JoinLength(held, w);
      JoinGrows(held + [w], tail);
      CountAbsorbs(tail, rest, held + [w], width);
    }
  }

  lemma {:induction false} JoinGrows(ws: seq<string>, more: seq<string>)
    ensures |Join(ws)| <= |Join(ws + more)|
    decreases |more|
  {
    if more == [] {
      assert ws + more == ws;
    } else {
      var init, w := more[..|more| - 1], more[|more| - 1];
      assert ws + more == ws + init + [w];
      JoinLength(ws + init, w);
      JoinGrows(ws, init);
    }
  }

  /** Filling a line that starts with its first word reaches its end. */
  lemma {:induction false} LineFills(g: seq<string>, rest: seq<string>, width: int)
    requires g != [] && AreWords(g) && |Join(g)| <= width
    ensures Count(g[1..] + rest, |g[0]|, width) == Count(rest, |Join(g)|, width)
  {
    var w, tail := g[0], g[1..];
    assert w in g && forall x :: x in tail ==> x in g;
    assert [w] + tail == g && Join([w]) == w;
    CountAbsorbs(tail, rest, [w], width);
  }

  /** A valid split without its first line splits what is left. */
  lemma {:induction false} SplitHead(groups: seq<seq<string>>, words: seq<string>, width: int)
    requires ValidSplit(groups, words, width) && groups != []
    ensures words != [] && groups[0] != [] && words[0] == groups[0][0]
    ensures ValidSplit(groups[1..], Flatten(groups[1..]), width)
    ensures Count(words[1..], |words[0]|, width) == Count(Flatten(groups[1..]), |Join(groups[0])|, width)
  {
    var g, others := groups[0], groups[1..];
    assert g in groups && forall h :: h in others ==> h in groups;
    assert words[1..] == g[1..] + Flatten(others);
    LineFills(g, Flatten(others), width);
  }

  /** With a line in hand, greedy needs at most one line more than any valid split of what is left. */
  lemma {:induction false} CountAtMostSplit(groups: seq<seq<string>>, words: seq<string>, c: nat, width: int)
    requires ValidSplit(groups, words, width)
    ensures Count(words, c, width) <= 1 + |groups|
    decreases |groups|
  {
    if groups != [] {
      SplitHead(groups, words, width);
      var w, rest := |words[0]|, words[1..];
      CountAtMostSplit(groups[1..], Flatten(groups[1..]), |Join(groups[0])|, width);
      if c + w + 1 <= width {
        CountMonotone(rest, if c == 0 then w else c + 1 + w, w, width);
      }
    }
  }

  /** Greedy wrapping uses the fewest lines any order-preserving split can, for words that fit,
      exactly when the first word is shorter than the width. */
  lemma {:induction false} WrapMinimalIff(words: seq<string>, width: int)
    requires AreWords(words) && words != [] && forall w :: w in words ==> |w| <= width
    ensures (forall g :: g in Groups(words, [], width) ==> |Join(g)| <= width)
    ensures (forall groups :: ValidSplit(groups, words, width)
                         ==> |Groups(words, [], width)| <= |groups|)
       <==> |words[0]| < width
  {
    assert words[0] in words;
    GroupsFit(words, [], width);
    var greedy := Groups(words, [], width);
    if |words[0]| < width {
      forall groups | ValidSplit(groups, words, width) ensures |greedy| <= |groups| {
        GreedyAtMostSplit(groups, words, width);
      }
    } else {
      LinesAreGroups(words, [], width);
      GroupsKeepOrder(words, [], width);
      GroupsNonEmpty(words, width);
      GroupsHoldWords(words, [], width);
      assert greedy[0] == [] && [] + words == words;
      assert [] + Flatten(greedy[1..]) == Flatten(greedy[1..]);
      assert ValidSplit(greedy[1..], words, width);
    }
  }

  lemma {:induction false} GreedyAtMostSplit(groups: seq<seq<string>>, words: seq<string>, width: int)
    requires ValidSplit(groups, words, width)
    requires AreWords(words) && words != [] && |words[0]| < width
    ensures |Groups(words, [], width)| <= |groups|
  {
    SplitHead(groups, words, width);
    CountAtMostSplit(groups[1..], Flatten(groups[1..]), |Join(groups[0])|, width);
    CountIsGroups(words, [], width);
  }
}
