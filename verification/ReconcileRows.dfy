/**
 The reconcile pass told from the rows' own fields: which legs a row has, which rows a reading of the broker
 closes, and which positions it adopts.
 */
module ReconcileRows {
  import opened Common
  import opened Text
  import Decimal
  import opened Reconcile

  // --- The legs of a row ------------------------------------------------------------------------

  /** A vertical has a short leg and a long one; a butterfly is short its centre and long its wings; any other
      row has the one leg it is booked with.  An empty field names nothing. */
  lemma {:induction false} LegsOfRow(r: Row)
    ensures r.condor ==>
              && ShortLegs(r) == {r.shortSymbol} - {""} && LongLegs(r) == {r.longSymbol} - {""}
    ensures !r.condor && r.butterfly ==>
              && ShortLegs(r) == {r.centerSymbol} - {""} && LongLegs(r) == {r.lowerSymbol, r.upperSymbol} - {""}
    ensures !r.condor && !r.butterfly && r.shortPosition ==>
              && ShortLegs(r) == {r.optionSymbol} - {""} && LongLegs(r) == {}
    ensures !r.condor && !r.butterfly && !r.shortPosition ==>
              && ShortLegs(r) == {} && LongLegs(r) == {r.optionSymbol} - {""}
  {
  }

  // --- The broker's reading ---------------------------------------------------------------------

  /** A symbol is filed with the last of the positions that carry it. */
  lemma {:induction false} LastPositionIsFiled(positions: seq<Position>, i: nat)
    requires i < |positions| && positions[i].symbol != ""
    requires forall j :: i < j < |positions| ==> positions[j].symbol != positions[i].symbol
    ensures var s := positions[i].symbol;
      s in BySymbol(positions) && BySymbol(positions)[s] == Holding(positions[i], Parses(s))
  {
    var last := |positions| - 1;
    if i < last {
      assert positions[..last][i] == positions[i];
      LastPositionIsFiled(positions[..last], i);
      OtherPositionFiled(positions, positions[i].symbol);
    } else {
      assert positions[last] == positions[i];
    }
  }

  lemma {:induction false} OtherPositionFiled(positions: seq<Position>, s: string)
    requires positions != [] && positions[|positions| - 1].symbol != s
    ensures var init := BySymbol(positions[..|positions| - 1]);
      && (s in BySymbol(positions) <==> s in init)
      && (s in init ==> BySymbol(positions)[s] == init[s])
  {
  }

  /** Six digits, C or P, eight digits. */
  predicate OccTail(t: string) {
    |t| == 15 && t[6] in "CPcp" && forall i :: 0 <= i < 15 && i != 6 ==> Decimal.IsDigit(t[i])
  }

  /** Where the text ends that stripping leaves. */
  lemma {:induction false} StripRightEnds(t: string) returns (e: nat)
    ensures e <= |t| && AllBlank(t[e..]) && StripRight(t) == t[..e]
  {
    if t != "" && IsSpace(t[|t| - 1]) {
      e := StripRightEnds(t[..|t| - 1]);
      forall i | 0 <= i < |t[e..]| ensures IsSpace(t[e..][i]) {
        if e + i < |t| - 1 {
          assert t[e..][i] == t[..|t| - 1][e..][i];
        }
      }
    } else {
      e := |t|;
      assert t[..e] == t;
    }
  }

  /** Leading dots stop at the latest where a character that is not one stands. */
  lemma {:induction false} DropDotsKeeps(t: string, k: nat)
    requires k < |t| && t[k] != '.'
    ensures |DropDots(t)| >= |t| - k && DropDots(t)[|DropDots(t)| - (|t| - k)..] == t[k..]
  {
    if t[0] == '.' {
      DropDotsKeeps(t[1..], k - 1);
    }
  }

  lemma {:induction false} DropDotsDrops(t: string) returns (k: nat)
    ensures k <= |t| && DropDots(t) == t[k..]
  {
    if t != "" && t[0] == '.' {
      k := DropDotsDrops(t[1..]);
      k := k + 1;
    } else {
      k := 0;
    }
  }

  /** An option symbol parses exactly when, but for blanks behind it, it ends in six digits, C or P, and eight
      digits; whatever stands before them. */
  lemma {:induction false} ParsesIff(symbol: string)
    ensures Parses(symbol)
       <==> exists e :: 15 <= e <= |symbol| && AllBlank(symbol[e..]) && OccTail(symbol[e - 15..e])
  {
    if Parses(symbol) {
      var k := DropDotsDrops(symbol);
      var e := StripRightEnds(symbol[k..]);
      ParsedTail(symbol, k, e);
    }
    if e :| 15 <= e <= |symbol| && AllBlank(symbol[e..]) && OccTail(symbol[e - 15..e]) {
      TailParses(symbol, e);
    }
  }

  lemma {:induction false} ParsedTail(symbol: string, k: nat, e: nat)
    requires Parses(symbol) && k <= |symbol| && DropDots(symbol) == symbol[k..]
    requires e <= |symbol| - k && AllBlank(symbol[k..][e..]) && StripRight(symbol[k..]) == symbol[k..][..e]
    ensures 15 <= k + e <= |symbol| && AllBlank(symbol[k + e..]) && OccTail(symbol[k + e - 15..k + e])
  {
    var core, tail := symbol[k..][..e], symbol[k + e - 15..k + e];
    assert symbol[k..][e..] == symbol[k + e..];
    assert core[|core| - 15..] == tail;
    forall i | 0 <= i < 15 && i != 6 ensures Decimal.IsDigit(tail[i]) {
      assert if i < 6 then tail[..6][i] == tail[i] else tail[7..][i - 7] == tail[i];
    }
  }

  lemma {:induction false} TailParses(symbol: string, e: nat)
    requires 15 <= e <= |symbol| && AllBlank(symbol[e..]) && OccTail(symbol[e - 15..e])
    ensures Parses(symbol)
  {
    var tail := symbol[e - 15..e];
    assert symbol[e - 15] == tail[0] && symbol[e - 1] == tail[14];
    DropDotsKeeps(symbol, e - 15);
    var core := DropDots(symbol);
    var n := |core| - (|symbol| - e);
    assert core[|core| - (|symbol| - (e - 15))..] == symbol[e - 15..];
    assert core[n - 15..] == symbol[e - 15..];
    assert core[n..] == core[n - 15..][15..] == symbol[e..];
    assert core[n - 1] == core[n - 15..][14];
    StripRightAt(core, n);
    assert core[..n][n - 15..] == core[n - 15..][..15] == tail;
  }

  // --- What a pass does with a row --------------------------------------------------------------

  /** The row's short leg is gone at the broker. */
  predicate Unprotected(r: Row, held: set<string>) {
    ShortLegs(r) != {} && ShortLegs(r) !! held
  }

  /** A row is open after a pass exactly when it has no legs, or some leg is held and its short leg, if it has
      one, is held; and when it is closed nothing carries its identity any more. */
  lemma {:induction false} RowSurvivesIff(rows: seq<Row>, r: Row, broker: map<string, Holding>, id: nat)
    requires r in rows && DistinctIds(rows) && IdsBelow(rows, id)
    ensures var after := After(rows, broker, id);
      && (r in after <==> Legs(r) == {} || (!(Legs(r) !! broker.Keys) && !Unprotected(r, broker.Keys)))
      && (r !in after ==> forall a :: a in after ==> a.id != r.id)
  {
    OldIdentities(rows, id);
    AfterWith(rows, broker, id);
    KeptIsSound(r, broker.Keys);
    assert Legs(r) == {} ==> ShortLegs(r) == {};
    forall a | a in rows && a.id == r.id ensures a == r {
      SameIdentity(rows, a, r);
    }
  }

  lemma {:induction false} SameIdentity(rows: seq<Row>, a: Row, b: Row)
    requires DistinctIds(rows) && a in rows && b in rows && a.id == b.id
    ensures a == b
  {
    var i: nat :| i < |rows| && rows[i] == a;
    var j: nat :| j < |rows| && rows[j] == b;
    assert IdAt(rows, i) == IdAt(rows, j);
  }

  /** What is open after a pass: the old rows it keeps, and new ones. */
  lemma {:induction false} AfterWith(rows: seq<Row>, broker: map<string, Holding>, id: nat)
    ensures forall a :: a in After(rows, broker, id) ==> (a in rows && FateOf(a, broker.Keys).Keep?) || a.id >= id
    ensures forall r :: r in rows && FateOf(r, broker.Keys).Keep? ==> r in After(rows, broker, id)
  {
    var orphans := Orphans(rows, |rows|, broker);
    assert rows[..|rows|] == rows;
    forall a | a in After(rows, broker, id) ensures (a in rows && FateOf(a, broker.Keys).Keep?) || a.id >= id {
      InKept(rows, |rows|, broker.Keys, a);
      if a !in Kept(rows, |rows|, broker.Keys) {
        var k :| 0 <= k < |orphans| && Numbered(orphans, id)[k] == a;
      }
    }
    forall r | r in rows && FateOf(r, broker.Keys).Keep? ensures r in After(rows, broker, id) {
      InKept(rows, |rows|, broker.Keys, r);
    }
  }

  /** The row leaves the symbol behind: it is unprotected, and the symbol is a long leg of it. */
  predicate Leaves(r: Row, held: set<string>, s: string) {
    Unprotected(r, held) && s in LongLegs(r) && s in held
  }

  lemma {:induction false} LeavesIff(r: Row, broker: map<string, Holding>, s: string)
    requires Filed(broker) && s in broker
    ensures LeavesLong(r, broker, s) <==> Leaves(r, broker.Keys, s)
  {
    FateBySets(r, broker.Keys);
    assert s in LongLegs(r) <==> RolesOf(r).long1 == s || RolesOf(r).long2 == s;
    assert s in LongLegs(r) && s in broker.Keys ==> s in LongLegs(r) * broker.Keys && s in Legs(r) * broker.Keys;
  }

  lemma {:induction false} OldIdentities(rows: seq<Row>, id: nat)
    requires IdsBelow(rows, id)
    ensures forall r :: r in rows ==> r.id < id
  {
    forall r | r in rows ensures r.id < id {
      var j :| 0 <= j < |rows| && rows[j] == r;
      assert IdAt(rows, j) < id;
    }
  }

  /** A new row after a pass is single-legged, in the symbol, direction and quantity of a holding that parses
      and that some row left behind. */
  lemma {:induction false} AdoptedIsTheHolding(rows: seq<Row>, positions: seq<Position>, id: nat, a: Row)
    requires IdsBelow(rows, id) && a in After(rows, BySymbol(positions), id) && a.id >= id
    ensures var broker, s := BySymbol(positions), a.optionSymbol;
      && s in broker && Parses(s) && (exists r :: r in rows && Leaves(r, broker.Keys, s))
      && var p := broker[s].position;
         && p in positions && p.symbol == s
         && a == Row(a.id, false, false, p.short, if p.quantity < 0 then -p.quantity else p.quantity,
                     s, "", "", "", "", "")
  {
    var broker := BySymbol(positions);
    AfterSource(rows, broker, id, a);
    OldIdentities(rows, id);
    var s, i :| s in broker && broker[s].occ && Some(a) == AdoptRecord(broker[s], a.id)
                && 0 <= i < |rows| && LeavesLong(rows[i], broker, s);
    LeavesIff(rows[i], broker, s);
    assert a.optionSymbol == s && rows[i] in rows;
    FiledFrom(positions, s);
  }

  lemma {:induction false} FiledFrom(positions: seq<Position>, s: string)
    requires s in BySymbol(positions)
    ensures BySymbol(positions)[s].position in positions
  {
    var init, p := positions[..|positions| - 1], positions[|positions| - 1];
    assert p in positions;
    if p.symbol != s {
      FiledFrom(init, s);
      assert forall x :: x in init ==> x in positions;
    }
  }

  /** Exactly the held long legs that unprotected rows leave behind are adopted, where their symbol parses. */
  lemma {:induction false} AdoptedExactly(rows: seq<Row>, positions: seq<Position>, id: nat, s: string)
    requires IdsBelow(rows, id)
    ensures var broker := BySymbol(positions);
      (exists a :: a in After(rows, broker, id) && a.id >= id && a.optionSymbol == s)
      <==> Parses(s) && exists r :: r in rows && Leaves(r, broker.Keys, s)
  {
    var broker := BySymbol(positions);
    if a :| a in After(rows, broker, id) && a.id >= id && a.optionSymbol == s {
      AdoptedIsTheHolding(rows, positions, id, a);
    }
    if r :| r in rows && Parses(s) && Leaves(r, broker.Keys, s) {
      var i :| 0 <= i < |rows| && rows[i] == r;
      LeavesIff(rows[i], broker, s);
      InOrphans(rows, |rows|, broker, s);
      assert LeftByOne(rows, |rows|, broker, s);
      var orphans := Orphans(rows, |rows|, broker);
      var k :| 0 <= k < |orphans| && orphans[k] == broker[s].position;
      var a := Numbered(orphans, id)[k];
      assert a in After(rows, broker, id) && a.id >= id && a.optionSymbol == s;
    }
  }

  function Symbols(rows: seq<Row>): set<string> {
    set a | a in rows :: a.optionSymbol
  }

  function PositionSymbols(ps: seq<Position>): set<string> {
    set p | p in ps :: p.symbol
  }

  ghost predicate DistinctSymbols(rows: seq<Row>) {
    forall i, j :: 0 <= i < j < |rows| ==> rows[i].optionSymbol != rows[j].optionSymbol
  }

  /** A butterfly whose body is gone at the broker with a wing still held is closed, and exactly its held wings
      that parse are adopted in its place, each once. */
  lemma {:induction false} BrokenButterfly(r: Row, positions: seq<Position>, id: nat)
    requires r.butterfly && !r.condor && r.centerSymbol != ""
    requires var held := BySymbol(positions).Keys;
      r.centerSymbol !in held && (r.lowerSymbol in held || r.upperSymbol in held)
    ensures var broker, after := BySymbol(positions), After([r], BySymbol(positions), id);
      && (forall a :: a in after ==> a.id >= id)
      && Symbols(after) == (set s | s in {r.lowerSymbol, r.upperSymbol} && s in broker && Parses(s))
      && DistinctSymbols(after)
  {
    var broker := BySymbol(positions);
    WingsSurvive(r, broker);
    OnlySurvivors(r, broker, id);
    NumberedSymbols(Survivors(r, broker), id);
  }

  lemma {:induction false} OnlySurvivors(r: Row, broker: map<string, Holding>, id: nat)
    requires FateOf(r, broker.Keys).Stripped?
    ensures After([r], broker, id) == Numbered(Survivors(r, broker), id)
  {
    assert Kept([r], 0, broker.Keys) == [] && Kept([r], 1, broker.Keys) == [];
    assert Orphans([r], 0, broker) == [] && Orphans([r], 1, broker) == Survivors(r, broker);
  }

  lemma {:induction false} NumberedSymbols(ps: seq<Position>, id: nat)
    ensures forall a :: a in Numbered(ps, id) ==> a.id >= id
    ensures Symbols(Numbered(ps, id)) == PositionSymbols(ps)
    ensures forall i :: 0 <= i < |ps| ==> Numbered(ps, id)[i].optionSymbol == ps[i].symbol
  {
    var rows := Numbered(ps, id);
    forall p | p in ps ensures p.symbol in Symbols(rows) {
      var k :| 0 <= k < |ps| && ps[k] == p;
      assert rows[k] in rows;
    }
  }

  lemma {:induction false} WingsSurvive(r: Row, broker: map<string, Holding>)
    requires r.butterfly && !r.condor && r.centerSymbol != "" && Filed(broker)
    requires r.centerSymbol !in broker && (r.lowerSymbol in broker || r.upperSymbol in broker)
    ensures FateOf(r, broker.Keys).Stripped?
    ensures var ps := Survivors(r, broker);
      && PositionSymbols(ps) == (set s | s in {r.lowerSymbol, r.upperSymbol} && s in broker && broker[s].occ)
      && (forall i, j :: 0 <= i < j < |ps| ==> ps[i].symbol != ps[j].symbol)
  {
    var ps := Survivors(r, broker);
    forall s | s in {r.lowerSymbol, r.upperSymbol} && s in broker && broker[s].occ
      ensures s in PositionSymbols(ps)
    {
      assert broker[s].position in ps;
    }
  }
}
