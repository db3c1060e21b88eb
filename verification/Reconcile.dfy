/**
 The intraday broker reconcile pass: rows whose position is gone at the broker are closed, rows whose
 short leg is gone are closed and their surviving long legs adopted as rows of their own.
 */
module Reconcile {
  import opened Common
  import opened Text
  import Decimal

  /** An open row of the trades table, as far as its legs go; "" is a symbol the row does not have. */
  datatype Row = Row(
    id: nat, condor: bool, butterfly: bool, shortPosition: bool, contracts: nat,
    optionSymbol: string, shortSymbol: string, longSymbol: string,
    lowerSymbol: string, centerSymbol: string, upperSymbol: string)

  /** A row's legs by role: at most one short symbol and two different long ones, "" for none. */
  datatype Roles = Roles(short: string, long1: string, long2: string)

  function RolesOf(r: Row): Roles {
    if r.condor then Roles(r.shortSymbol, r.longSymbol, "")
    else if r.butterfly then
      Roles(r.centerSymbol, r.lowerSymbol, if r.upperSymbol == r.lowerSymbol then "" else r.upperSymbol)
    else if r.shortPosition then Roles(r.optionSymbol, "", "")
    else Roles("", r.optionSymbol, "")
  }

  function Named(symbol: string): set<string> {
    if symbol == "" then {} else {symbol}
  }

  function ShortLegs(r: Row): set<string> {
    Named(RolesOf(r).short)
  }

  function LongLegs(r: Row): set<string> {
    Named(RolesOf(r).long1) + Named(RolesOf(r).long2)
  }

  function Legs(r: Row): set<string> {
    ShortLegs(r) + LongLegs(r)
  }

  // --- The broker's positions -------------------------------------------------------------------

  datatype Position = Position(symbol: string, short: bool, quantity: int)

  function DropDots(s: string): string {
    if s != "" && s[0] == '.' then DropDots(s[1..]) else s
  }

  /** The fixed-width tail of an option symbol: six digits of expiry, C or P, eight of strike. */
  predicate Parses(symbol: string) {
    var core := StripRight(DropDots(symbol));
    && |core| >= 15
    && var tail := core[|core| - 15..];
       && tail[6] in "CPcp"
       && Decimal.IsNumeral(tail[..6])
       && Decimal.IsNumeral(tail[7..])
  }

  /** A position the broker holds, and whether its option symbol parses. */
  datatype Holding = Holding(position: Position, occ: bool)

  /** Holdings are filed under their own symbols. */
  ghost predicate Filed(broker: map<string, Holding>) {
    forall s :: s in broker ==> s != "" && broker[s].position.symbol == s
  }

  /** The broker's positions by symbol; a symbol listed twice keeps the last. */
  function BySymbol(broker: seq<Position>): (m: map<string, Holding>)
    ensures Filed(m) && forall s :: s in m ==> (m[s].occ <==> Parses(s))
  {
    if broker == [] then map[]
    else
      var init, p := BySymbol(broker[..|broker| - 1]), broker[|broker| - 1];
      if p.symbol == "" then init else init[p.symbol := Holding(p, Parses(p.symbol))]
  }

  function AdoptedRow(p: Position, id: nat): Row {
    Row(id, false, false, p.short, Quantity(p),
        p.symbol, "", "", "", "", "")
  }

  function AdoptRecord(h: Holding, id: nat): Option<Row> {
    if h.occ then Some(AdoptedRow(h.position, id)) else None
  }

  // --- The pass ---------------------------------------------------------------------------------

  datatype Fate = Keep | Phantom | Stripped

  predicate Held(symbol: string, held: set<string>) {
    symbol != "" && symbol in held
  }

  /** What a pass does with a row: nothing, close it, or close it and adopt its held long legs. */
  function FateOf(r: Row, held: set<string>): Fate {
    var legs := RolesOf(r);
    var shortHeld := Held(legs.short, held);
    var longHeld := Held(legs.long1, held) || Held(legs.long2, held);
    if legs == Roles("", "", "") then Keep
    else if !shortHeld && !longHeld then Phantom
    else if legs.short != "" && !shortHeld then Stripped
    else Keep
  }

  /** The same decision in terms of the row's leg sets and the broker's symbols. */
  lemma {:induction false} FateBySets(r: Row, held: set<string>)
    ensures FateOf(r, held) ==
              if Legs(r) == {} then Keep
              else if Legs(r) * held == {} then Phantom
              else if ShortLegs(r) != {} && ShortLegs(r) * held == {} && LongLegs(r) * held != {} then Stripped
              else Keep
  {
    var legs := RolesOf(r);
    NamedHeld(legs.short, held);
    NamedHeld(legs.long1, held);
    NamedHeld(legs.long2, held);
    assert LongLegs(r) * held == Named(legs.long1) * held + Named(legs.long2) * held;
    assert Legs(r) * held == ShortLegs(r) * held + LongLegs(r) * held;
    assert legs.short != "" ==> legs.short in Legs(r);
    assert legs.long1 != "" ==> legs.long1 in Legs(r);
    assert legs.long2 != "" ==> legs.long2 in Legs(r);
    assert Held(legs.short, held) ==> legs.short in Legs(r) * held;
    assert Held(legs.long1, held) ==> legs.long1 in LongLegs(r) * held && legs.long1 in Legs(r) * held;
    assert Held(legs.long2, held) ==> legs.long2 in LongLegs(r) * held && legs.long2 in Legs(r) * held;
  }

  lemma {:induction false} NamedHeld(s: string, held: set<string>)
    ensures Named(s) == {} <==> s == ""
    ensures Named(s) * held == if Held(s, held) then {s} else {}
  {
  }

  /** The rows kept among the first n. */
  function Kept(rows: seq<Row>, n: nat, held: set<string>): seq<Row>
    requires n <= |rows|
  {
    if n == 0 then []
    else Kept(rows, n - 1, held) + if FateOf(rows[n - 1], held).Keep? then [rows[n - 1]] else []
  }

  /** The broker's position in the symbol, when it can be adopted. */
  function Pick(symbol: string, broker: map<string, Holding>): seq<Position> {
    if symbol in broker && broker[symbol].occ then [broker[symbol].position] else []
  }

  /** The positions a row leaves to be adopted. */
  function Survivors(r: Row, broker: map<string, Holding>): seq<Position> {
    if FateOf(r, broker.Keys).Stripped?
    then Pick(RolesOf(r).long1, broker) + Pick(RolesOf(r).long2, broker)
    else []
  }

  /** The positions the first n rows leave to be adopted. */
  function Orphans(rows: seq<Row>, n: nat, broker: map<string, Holding>): seq<Position>
    requires n <= |rows|
  {
    if n == 0 then [] else Orphans(rows, n - 1, broker) + Survivors(rows[n - 1], broker)
  }

  /** Adopted rows, numbered from `id`. */
  function Numbered(ps: seq<Position>, id: nat): (rows: seq<Row>)
    ensures |rows| == |ps| && forall k :: 0 <= k < |ps| ==> rows[k] == AdoptedRow(ps[k], id + k)
  {
    seq(|ps|, k requires 0 <= k < |ps| => AdoptedRow(ps[k], id + k))
  }

  /** A position whose symbol parses, filed under it. */
  predicate OnFile(p: Position, broker: map<string, Holding>) {
    p.symbol in broker && broker[p.symbol] == Holding(p, true)
  }

  lemma {:induction false} SurvivorsOnFile(r: Row, broker: map<string, Holding>)
    requires Filed(broker)
    ensures forall p :: p in Survivors(r, broker) ==> OnFile(p, broker)
  {
  }

  lemma {:induction false} OrphansOnFile(rows: seq<Row>, n: nat, broker: map<string, Holding>)
    requires n <= |rows| && Filed(broker)
    ensures forall p :: p in Orphans(rows, n, broker) ==> OnFile(p, broker)
  {
    if n > 0 {
      OrphansOnFile(rows, n - 1, broker);
      SurvivorsOnFile(rows[n - 1], broker);
    }
  }

  /** The open rows after a pass. */
  function After(rows: seq<Row>, broker: map<string, Holding>, id: nat): seq<Row> {
    Kept(rows, |rows|, broker.Keys) + Numbered(Orphans(rows, |rows|, broker), id)
  }

  // --- The trades table -------------------------------------------------------------------------

  function WithoutId(rows: seq<Row>, id: nat): seq<Row> {
    if rows == [] then []
    else
      var init, r := rows[..|rows| - 1], rows[|rows| - 1];
      WithoutId(init, id) + if r.id != id then [r] else []
  }

  function IdAt(rows: seq<Row>, i: nat): nat
    requires i < |rows|
  {
    rows[i].id
  }

  ghost predicate DistinctIds(rows: seq<Row>) {
    forall i: nat, j: nat :: i < j < |rows| ==> IdAt(rows, i) != IdAt(rows, j)
  }

  ghost predicate IdsBelow(rows: seq<Row>, id: nat) {
    forall i: nat :: i < |rows| ==> IdAt(rows, i) < id
  }

  lemma {:induction false} WithoutIdSplit(a: seq<Row>, b: seq<Row>, id: nat)
    ensures WithoutId(a + b, id) == WithoutId(a, id) + WithoutId(b, id)
    decreases |b|
  {
    if b == [] {
      assert a + b == a;
    } else {
      var init := b[..|b| - 1];
      assert (a + b)[..|a + b| - 1] == a + init;
      WithoutIdSplit(a, init, id);
    }
  }

  lemma {:induction false} WithoutIdAbsent(rows: seq<Row>, id: nat)
    requires forall r :: r in rows ==> r.id != id
    ensures WithoutId(rows, id) == rows
  {
    if rows != [] {
      var init, r := rows[..|rows| - 1], rows[|rows| - 1];
      assert r in rows;
      WithoutIdAbsent(init, id);
      assert rows == init + [r];
    }
  }

  lemma {:induction false} OthersDiffer(a: seq<Row>, r: Row, b: seq<Row>)
    requires DistinctIds(a + [r] + b)
    ensures forall x :: x in a || x in b ==> x.id != r.id
  {
    var all := a + [r] + b;
    assert IdAt(all, |a|) == r.id;
    forall x | x in a ensures x.id != r.id {
      var k :| 0 <= k < |a| && a[k] == x;
      assert IdAt(all, k) == x.id;
    }
    forall x | x in b ensures x.id != r.id {
      var k :| 0 <= k < |b| && b[k] == x;
      assert IdAt(all, |a| + 1 + k) == x.id;
    }
  }

  lemma {:induction false} RemoveLast(a: seq<Row>, r: Row)
    requires forall x :: x in a ==> x.id != r.id
    ensures WithoutId(a + [r], r.id) == a
  {
    WithoutIdAbsent(a, r.id);
    assert (a + [r])[..|a|] == a;
  }

  lemma {:induction false} RemoveAmong(a: seq<Row>, r: Row, b: seq<Row>)
    requires forall x :: x in a ==> x.id != r.id
    requires forall x :: x in b ==> x.id != r.id
    ensures WithoutId(a + [r] + b, r.id) == a + b
  {
    RemoveLast(a, r);
    WithoutIdAbsent(b, r.id);
    WithoutIdSplit(a + [r], b, r.id);
  }

  lemma {:induction false} RemoveOne(a: seq<Row>, r: Row, b: seq<Row>)
    requires DistinctIds(a + [r] + b)
    ensures WithoutId(a + [r] + b, r.id) == a + b
  {
    OthersDiffer(a, r, b);
    RemoveAmong(a, r, b);
  }

  lemma {:induction false} RemoveKeepsIds(a: seq<Row>, r: Row, b: seq<Row>, id: nat)
    requires DistinctIds(a + [r] + b) && IdsBelow(a + [r] + b, id)
    ensures DistinctIds(a + b) && IdsBelow(a + b, id)
  {
    var all := a + [r] + b;
    forall i: nat | i < |a + b| ensures IdAt(a + b, i) == IdAt(all, if i < |a| then i else i + 1) {
    }
  }

  lemma {:induction false} AppendFresh(rows: seq<Row>, more: Row, id: nat)
    requires DistinctIds(rows) && IdsBelow(rows, id) && more.id == id
    ensures DistinctIds(rows + [more]) && IdsBelow(rows + [more], id + 1)
  {
    var all := rows + [more];
    forall i: nat | i < |all| ensures IdAt(all, i) == if i < |rows| then IdAt(rows, i) else id {
    }
  }

  /** The table as the pass sees it: the live open rows, and the next unused identity. */
  class TradesTable {
    var rows: seq<Row>
    var nextId: nat

    ghost predicate Valid()
      reads this
    {
      DistinctIds(rows) && IdsBelow(rows, nextId)
    }

    constructor (rows: seq<Row>, nextId: nat)
      requires DistinctIds(rows) && IdsBelow(rows, nextId)
      ensures Valid() && this.rows == rows && this.nextId == nextId
    {
      this.rows, this.nextId := rows, nextId;
    }

    method ClosePhantom(id: nat)
      modifies `rows
      ensures rows == WithoutId(old(rows), id)
    {
      rows := WithoutId(rows, id);
    }

    method LogEntry(r: Row)
      requires Valid() && r.id == nextId
      modifies this
      ensures Valid() && rows == old(rows) + [r] && nextId == old(nextId) + 1
    {
      AppendFresh(rows, r, nextId);
      rows, nextId := rows + [r], nextId + 1;
    }

    /** Adopts one long leg, if the broker holds it and its symbol parses. */
    method AdoptLeg(symbol: string, broker: map<string, Holding>)
      requires Valid()
      modifies this
      ensures Valid()
      ensures rows == old(rows) + Numbered(Pick(symbol, broker), old(nextId))
      ensures nextId == old(nextId) + |Pick(symbol, broker)|
    {
      if symbol in broker {
        var adopted := AdoptRecord(broker[symbol], nextId);
        if adopted.Some? {
          LogEntry(adopted.value);
        }
      }
    }

    /** Adopts the long legs a closed row leaves behind it. */
    method AdoptLegs(r: Row, broker: map<string, Holding>)
      requires Valid()
      modifies this
      ensures Valid()
      ensures var left := Pick(RolesOf(r).long1, broker) + Pick(RolesOf(r).long2, broker);
        rows == old(rows) + Numbered(left, old(nextId)) && nextId == old(nextId) + |left|
    {
      NumberedConcat(Pick(RolesOf(r).long1, broker), Pick(RolesOf(r).long2, broker), nextId);
      AdoptLeg(RolesOf(r).long1, broker);
      AdoptLeg(RolesOf(r).long2, broker);
    }

    /** The pass's treatment of one row, which stands between two stretches of the table. */
    method ReconcileRow(r: Row, broker: map<string, Holding>,
                        ghost kept: seq<Row>, ghost rest: seq<Row>, ghost next: seq<Row>)
      requires Valid() && rows == kept + [r] + rest && next == Treated(r, broker, kept, rest, nextId)
      modifies this
      ensures Valid()
      ensures rows == next
      ensures nextId == old(nextId) + |Survivors(r, broker)|
    {
      var fate := FateOf(r, broker.Keys);
      if fate.Keep? {
        return;
      }
      RemoveOne(kept, r, rest);
      RemoveKeepsIds(kept, r, rest, nextId);
      ClosePhantom(r.id);
      assert rows == kept + Left(r, fate) + rest;
      if fate.Stripped? {
        AdoptLegs(r, broker);
      }
    }

    /** The pass's treatment of the i-th of the rows it set out with. */
    method ReconcileNext(openRows: seq<Row>, i: nat, broker: map<string, Holding>, ghost id: nat)
      requires Valid() && Filed(broker) && i < |openRows|
      requires nextId == id + |Orphans(openRows, i, broker)| && rows == Midway(openRows, i, broker, id)
      modifies this
      ensures Valid()
      ensures nextId == id + |Orphans(openRows, i + 1, broker)| && rows == Midway(openRows, i + 1, broker, id)
    {
      MidwayBefore(openRows, i, broker, id);
      ghost var kept, rest := Kept(openRows, i, broker.Keys), ToCome(openRows, i, broker, id);
      ghost var next := Treated(openRows[i], broker, kept, rest, nextId);
      MidwayAfter(openRows, i, broker, id, nextId);
      ReconcileRow(openRows[i], broker, kept, rest, next);
    }

    /** One pass.  A failed or empty read of the broker changes nothing. */
    method IntradayReconcile(read: Option<seq<Position>>)
      requires Valid()
      modifies this
      ensures Valid()
      ensures read.None? || read.value == [] ==> rows == old(rows) && nextId == old(nextId)
      ensures read.Some? && read.value != [] ==>
                rows == After(old(rows), BySymbol(read.value), old(nextId))
    {
      if read.None? {
        return;
      }
      var openRows := rows;
      if openRows == [] {
        return;
      }
      if read.value == [] {
        return;
      }
      var broker := BySymbol(read.value);
      ghost var id := nextId;
      MidwayEnds(openRows, broker, id);
      for i := 0 to |openRows|
        invariant Valid() && nextId == id + |Orphans(openRows, i, broker)|
        invariant rows == Midway(openRows, i, broker, id)
      {
        ReconcileNext(openRows, i, broker, id);
      }
    }
  }

  /** What stays of a row in its place. */
  function Left(r: Row, fate: Fate): seq<Row> {
    if fate.Keep? then [r] else []
  }

  /** The table after one row has been dealt with: its place, and its survivors at the end. */
  ghost function Treated(r: Row, broker: map<string, Holding>, kept: seq<Row>, rest: seq<Row>, id: nat): seq<Row> {
    kept + Left(r, FateOf(r, broker.Keys)) + rest + Numbered(Survivors(r, broker), id)
  }

  /** The table when the pass has dealt with the first i rows. */
  ghost function Midway(rows: seq<Row>, i: nat, broker: map<string, Holding>, id: nat): seq<Row>
    requires i <= |rows|
  {
    Kept(rows, i, broker.Keys) + rows[i..] + Numbered(Orphans(rows, i, broker), id)
  }

  /** What stands behind row i in it. */
  ghost function ToCome(rows: seq<Row>, i: nat, broker: map<string, Holding>, id: nat): seq<Row>
    requires i < |rows|
  {
    rows[i + 1..] + Numbered(Orphans(rows, i, broker), id)
  }

  lemma {:induction false} NumberedConcat(a: seq<Position>, b: seq<Position>, id: nat)
    ensures Numbered(a + b, id) == Numbered(a, id) + Numbered(b, id + |a|)
  {
  }

  lemma {:induction false} MidwayBefore(rows: seq<Row>, i: nat, broker: map<string, Holding>, id: nat)
    requires i < |rows|
    ensures Midway(rows, i, broker, id)
            == Kept(rows, i, broker.Keys) + [rows[i]] + ToCome(rows, i, broker, id)
  {
    TakeNext(Kept(rows, i, broker.Keys), rows, i, Numbered(Orphans(rows, i, broker), id));
  }

  lemma {:induction false} MidwayAfter(rows: seq<Row>, i: nat, broker: map<string, Holding>, id: nat, at: nat)
    requires i < |rows| && at == id + |Orphans(rows, i, broker)|
    ensures Midway(rows, i + 1, broker, id)
            == Treated(rows[i], broker, Kept(rows, i, broker.Keys), ToCome(rows, i, broker, id), at)
    ensures |Orphans(rows, i + 1, broker)| == |Orphans(rows, i, broker)| + |Survivors(rows[i], broker)|
  {
    var orphans, leaves := Orphans(rows, i, broker), Survivors(rows[i], broker);
    assert Orphans(rows, i + 1, broker) == orphans + leaves;
    NumberedConcat(orphans, leaves, id);
    PutBack(Kept(rows, i + 1, broker.Keys), Kept(rows, i, broker.Keys), Left(rows[i], FateOf(rows[i], broker.Keys)),
            rows[i + 1..], Numbered(Orphans(rows, i + 1, broker), id), Numbered(orphans, id), Numbered(leaves, at));
  }

  lemma {:induction false} TakeNext<T>(a: seq<T>, rows: seq<T>, i: nat, d: seq<T>)
    requires i < |rows|
    ensures a + rows[i..] + d == a + [rows[i]] + (rows[i + 1..] + d)
  {
  }

  lemma {:induction false} PutBack<T>(ab: seq<T>, a: seq<T>, b: seq<T>, c: seq<T>, de: seq<T>, d: seq<T>, e: seq<T>)
    requires ab == a + b && de == d + e
    ensures ab + c + de == a + b + (c + d) + e
  {
  }

  lemma {:induction false} MidwayEnds(rows: seq<Row>, broker: map<string, Holding>, id: nat)
    ensures Midway(rows, 0, broker, id) == rows
    ensures Midway(rows, |rows|, broker, id) == After(rows, broker, id)
  {
  }

  // --- What a pass keeps ------------------------------------------------------------------------

  /** The broker-held symbols that some open row covers. */
  function Covered(rows: seq<Row>, held: set<string>): set<string> {
    set r, s | r in rows && s in Legs(r) && s in held :: s
  }

  lemma {:induction false} InKept(rows: seq<Row>, n: nat, held: set<string>, r: Row)
    requires n <= |rows|
    ensures r in Kept(rows, n, held) <==> r in rows[..n] && FateOf(r, held).Keep?
  {
    if n > 0 {
      InKept(rows, n - 1, held, r);
      assert rows[..n] == rows[..n - 1] + [rows[n - 1]];
    }
  }

  lemma {:induction false} InSurvivors(r: Row, broker: map<string, Holding>, s: string)
    requires Filed(broker) && s in broker
    ensures broker[s].position in Survivors(r, broker) <==> broker[s].occ && LeavesLong(r, broker, s)
  {
  }

  /** A holding is left to be adopted exactly when it is a long leg of some stripped row and parses. */
  lemma {:induction false} InOrphans(rows: seq<Row>, n: nat, broker: map<string, Holding>, s: string)
    requires n <= |rows| && Filed(broker) && s in broker
    ensures broker[s].position in Orphans(rows, n, broker) <==>
              broker[s].occ && LeftByOne(rows, n, broker, s)
  {
    if n > 0 {
      InOrphans(rows, n - 1, broker, s);
      OneMoreOrphan(rows, n - 1, broker, s);
    }
  }

  /** Some stripped row among the first n holds s as a long leg. */
  ghost predicate LeftByOne(rows: seq<Row>, n: nat, broker: map<string, Holding>, s: string)
    requires n <= |rows|
  {
    exists i :: 0 <= i < n && LeavesLong(rows[i], broker, s)
  }

  lemma {:induction false} OneMoreOrphan(rows: seq<Row>, n: nat, broker: map<string, Holding>, s: string)
    requires n < |rows| && Filed(broker) && s in broker
    ensures broker[s].position in Orphans(rows, n + 1, broker) <==>
              || broker[s].position in Orphans(rows, n, broker)
              || (broker[s].occ && LeavesLong(rows[n], broker, s))
    ensures LeftByOne(rows, n + 1, broker, s) <==>
              LeftByOne(rows, n, broker, s) || LeavesLong(rows[n], broker, s)
  {
    InSurvivors(rows[n], broker, s);
  }

  predicate LeavesLong(r: Row, broker: map<string, Holding>, s: string) {
    FateOf(r, broker.Keys).Stripped? && (RolesOf(r).long1 == s || RolesOf(r).long2 == s)
  }

  lemma {:induction false} AdoptedLegs(h: Holding, id: nat)
    requires h.occ && h.position.symbol != ""
    ensures Legs(AdoptRecord(h, id).value) == {h.position.symbol}
    ensures ShortLegs(AdoptRecord(h, id).value) in {{}, {h.position.symbol}}
  {
  }

  /** A row open after a pass was open and kept, or stands for a holding that some stripped row left. */
  lemma {:induction false} AfterSource(rows: seq<Row>, broker: map<string, Holding>, id: nat, a: Row)
    requires Filed(broker)
    requires a in After(rows, broker, id)
    ensures || (a in rows && a in Kept(rows, |rows|, broker.Keys) && FateOf(a, broker.Keys).Keep?)
            || (exists s, i :: s in broker && broker[s].occ && Some(a) == AdoptRecord(broker[s], a.id)
                               && 0 <= i < |rows| && LeavesLong(rows[i], broker, s))
  {
    var hs := Orphans(rows, |rows|, broker);
    InKept(rows, |rows|, broker.Keys, a);
    assert rows[..|rows|] == rows;
    if a !in Kept(rows, |rows|, broker.Keys) {
      var k :| 0 <= k < |hs| && Numbered(hs, id)[k] == a;
      OrphansOnFile(rows, |rows|, broker);
      assert hs[k] in hs;
      InOrphans(rows, |rows|, broker, hs[k].symbol);
    }
  }

  lemma {:induction false} CoveredAfterWasCovered(rows: seq<Row>, broker: map<string, Holding>, id: nat, s: string)
    requires Filed(broker)
    requires s in Covered(After(rows, broker, id), broker.Keys)
    ensures s in Covered(rows, broker.Keys)
    ensures broker[s].occ || s in Covered(Kept(rows, |rows|, broker.Keys), broker.Keys)
  {
    var a :| a in After(rows, broker, id) && s in Legs(a);
    AfterSource(rows, broker, id, a);
    if !(a in rows && a in Kept(rows, |rows|, broker.Keys)) {
      var x, i :| x in broker && broker[x].occ && Some(a) == AdoptRecord(broker[x], a.id)
                  && 0 <= i < |rows| && LeavesLong(rows[i], broker, x);
      AdoptedLegs(broker[x], a.id);
      assert x == s && rows[i] in rows && s in Legs(rows[i]);
    }
  }

  lemma {:induction false} AdoptedIsOpen(rows: seq<Row>, broker: map<string, Holding>, id: nat, s: string)
    requires Filed(broker)
    requires s in broker && broker[s].position in Orphans(rows, |rows|, broker)
    ensures exists a :: a in After(rows, broker, id) && s in Legs(a)
  {
    var hs := Orphans(rows, |rows|, broker);
    OrphansOnFile(rows, |rows|, broker);
    var k :| 0 <= k < |hs| && hs[k] == broker[s].position;
    var a := Numbered(hs, id)[k];
    AdoptedLegs(broker[s], id + k);
    assert a in Numbered(hs, id) && a in After(rows, broker, id) && s in Legs(a);
  }

  lemma {:induction false} CoveredStaysCovered(rows: seq<Row>, broker: map<string, Holding>, id: nat, s: string)
    requires Filed(broker)
    requires s in Covered(rows, broker.Keys)
    requires broker[s].occ || s in Covered(Kept(rows, |rows|, broker.Keys), broker.Keys)
    ensures s in Covered(After(rows, broker, id), broker.Keys)
  {
    var held, kept := broker.Keys, Kept(rows, |rows|, broker.Keys);
    if s in Covered(kept, held) {
      var k :| k in kept && s in Legs(k);
      assert k in After(rows, broker, id);
    } else {
      var i :| 0 <= i < |rows| && s in Legs(rows[i]);
      InKept(rows, |rows|, held, rows[i]);
      assert rows[i] in rows[..|rows|];
      StrippedLeavesItsLong(rows[i], broker, s);
      InOrphans(rows, |rows|, broker, s);
      AdoptedIsOpen(rows, broker, id, s);
    }
  }

  lemma {:induction false} StrippedLeavesItsLong(r: Row, broker: map<string, Holding>, s: string)
    requires Filed(broker) && s in broker && s in Legs(r) && !FateOf(r, broker.Keys).Keep?
    ensures LeavesLong(r, broker, s)
  {
  }

  /** Coverage, exactly: a held symbol stays covered unless the only rows that had it were stripped and
      its option symbol does not parse; and nothing becomes covered that was not. */
  lemma {:induction false} CoverageExact(rows: seq<Row>, broker: map<string, Holding>, id: nat)
    requires Filed(broker)
    ensures forall s :: s in broker ==>
              (s in Covered(After(rows, broker, id), broker.Keys) <==>
                && s in Covered(rows, broker.Keys)
                && (broker[s].occ || s in Covered(Kept(rows, |rows|, broker.Keys), broker.Keys)))
  {
    forall s | s in broker
      ensures s in Covered(After(rows, broker, id), broker.Keys) <==>
                && s in Covered(rows, broker.Keys)
                && (broker[s].occ || s in Covered(Kept(rows, |rows|, broker.Keys), broker.Keys))
    {
      if s in Covered(After(rows, broker, id), broker.Keys) {
        CoveredAfterWasCovered(rows, broker, id, s);
      } else if s in Covered(rows, broker.Keys)
                && (broker[s].occ || s in Covered(Kept(rows, |rows|, broker.Keys), broker.Keys)) {
        CoveredStaysCovered(rows, broker, id, s);
      }
    }
  }

  /** One pass over what the broker said: the covered symbols are conserved when every held symbol parses,
      and an adopted row always stands for a symbol that was covered before, never for a position that was
      not managed. */
  lemma {:induction false} CoverageConserved(rows: seq<Row>, positions: seq<Position>, id: nat)
    ensures var broker := BySymbol(positions);
      && Covered(After(rows, broker, id), broker.Keys) <= Covered(rows, broker.Keys)
      && ((forall p :: p in positions && p.symbol != "" ==> Parses(p.symbol)) ==>
            Covered(After(rows, broker, id), broker.Keys) == Covered(rows, broker.Keys))
  {
    var broker := BySymbol(positions);
    CoverageExact(rows, broker, id);
    forall s | s in broker ensures exists p :: p in positions && p.symbol == s {
      BySymbolHolds(positions, s);
    }
    assert forall s :: s in Covered(rows, broker.Keys) ==> s in broker;
    assert forall s :: s in Covered(After(rows, broker, id), broker.Keys) ==> s in broker;
  }

  lemma {:induction false} BySymbolHolds(positions: seq<Position>, s: string)
    requires s in BySymbol(positions)
    ensures exists p :: p in positions && p.symbol == s
  {
    var init, p := positions[..|positions| - 1], positions[|positions| - 1];
    if p.symbol == s {
      assert p in positions;
    } else {
      BySymbolHolds(init, s);
      var q :| q in init && q.symbol == s;
      assert q in positions;
    }
  }

  lemma {:induction false} KeptIsSound(r: Row, held: set<string>)
    ensures FateOf(r, held).Keep? <==>
              && (Legs(r) != {} ==> Legs(r) * held != {})
              && !(ShortLegs(r) != {} && ShortLegs(r) * held == {})
  {
    FateBySets(r, held);
    assert Legs(r) * held == ShortLegs(r) * held + LongLegs(r) * held;
    assert ShortLegs(r) <= Legs(r);
  }

  /** Every row that is open after a pass has no legs, or some leg held, and is never a long leg left alone
      by its short. */
  lemma {:induction false} SurvivorsAreSound(rows: seq<Row>, broker: map<string, Holding>, id: nat)
    requires Filed(broker)
    ensures forall a :: a in After(rows, broker, id) ==>
              && (Legs(a) != {} ==> Legs(a) * broker.Keys != {})
              && !(ShortLegs(a) != {} && ShortLegs(a) * broker.Keys == {})
  {
    var held := broker.Keys;
    forall a | a in After(rows, broker, id)
      ensures (Legs(a) != {} ==> Legs(a) * held != {})
              && !(ShortLegs(a) != {} && ShortLegs(a) * held == {})
    {
      AfterSource(rows, broker, id, a);
      if FateOf(a, held).Keep? {
        KeptIsSound(a, held);
      } else {
        var x, i :| x in broker && broker[x].occ && Some(a) == AdoptRecord(broker[x], a.id)
                    && 0 <= i < |rows| && LeavesLong(rows[i], broker, x);
        AdoptedLegs(broker[x], a.id);
        assert x in Legs(a) * held;
        assert ShortLegs(a) != {} ==> x in ShortLegs(a) * held;
      }
    }
  }

  lemma {:induction false} AllKept(rows: seq<Row>, n: nat, broker: map<string, Holding>)
    requires n <= |rows| && forall i :: 0 <= i < n ==> FateOf(rows[i], broker.Keys).Keep?
    ensures Kept(rows, n, broker.Keys) == rows[..n]
  {
    if n > 0 {
      AllKept(rows, n - 1, broker);
      assert rows[..n] == rows[..n - 1] + [rows[n - 1]];
    }
  }

  lemma {:induction false} NoneLeft(rows: seq<Row>, n: nat, broker: map<string, Holding>)
    requires n <= |rows| && forall i :: 0 <= i < n ==> FateOf(rows[i], broker.Keys).Keep?
    ensures Orphans(rows, n, broker) == []
  {
    if n > 0 {
      NoneLeft(rows, n - 1, broker);
      assert FateOf(rows[n - 1], broker.Keys).Keep?;
    }
  }

  /** A second pass on the same reading changes nothing. */
  lemma {:induction false} ReconcileIdempotent(rows: seq<Row>, broker: map<string, Holding>, id: nat, id': nat)
    requires Filed(broker)
    ensures var after := After(rows, broker, id);
      && Orphans(after, |after|, broker) == []
      && After(after, broker, id') == after
  {
    var after := After(rows, broker, id);
    SurvivorsAreSound(rows, broker, id);
    forall i | 0 <= i < |after| ensures FateOf(after[i], broker.Keys).Keep? {
      assert after[i] in after;
      KeptIsSound(after[i], broker.Keys);
    }
    AllKept(after, |after|, broker);
    NoneLeft(after, |after|, broker);
    assert after[..|after|] == after;
  }

  // --- Quantities -------------------------------------------------------------------------------

  /** How many times a position is left to be adopted. */
  function TimesLeft(ps: seq<Position>, p: Position): nat {
    if ps == [] then 0 else TimesLeft(ps[..|ps| - 1], p) + if ps[|ps| - 1] == p then 1 else 0
  }

  lemma {:induction false} TimesConcat(a: seq<Position>, b: seq<Position>, p: Position)
    ensures TimesLeft(a + b, p) == TimesLeft(a, p) + TimesLeft(b, p)
    decreases |b|
  {
    if b == [] {
      assert a + b == a;
    } else {
      var init := b[..|b| - 1];
      assert (a + b)[..|a + b| - 1] == a + init;
      TimesConcat(a, init, p);
    }
  }

  /** How many of the first n rows are stripped and hold s as a long leg. */
  function StrippedHolding(rows: seq<Row>, n: nat, broker: map<string, Holding>, s: string): nat
    requires n <= |rows|
  {
    if n == 0 then 0
    else StrippedHolding(rows, n - 1, broker, s) + if LeavesLong(rows[n - 1], broker, s) then 1 else 0
  }

  /** What the first n rows leave to be adopted holds s once for each of them that is stripped and holds it. */
  ghost predicate AdoptedOnce(rows: seq<Row>, n: nat, broker: map<string, Holding>, s: string)
    requires n <= |rows| && s in broker
  {
    TimesLeft(Orphans(rows, n, broker), broker[s].position) == StrippedHolding(rows, n, broker, s)
  }

  /** A held long leg is adopted once for every stripped row that holds it. */
  lemma {:induction false} AdoptedOncePerStrippedRow(rows: seq<Row>, n: nat, broker: map<string, Holding>, s: string)
    requires n <= |rows| && Filed(broker) && s in broker && broker[s].occ
    ensures AdoptedOnce(rows, n, broker, s)
  {
    if n > 0 {
      AdoptedOncePerStrippedRow(rows, n - 1, broker, s);
      LeftOnceMore(rows, n - 1, broker, s);
    }
  }

  lemma {:induction false} LeftOnceMore(rows: seq<Row>, n: nat, broker: map<string, Holding>, s: string)
    requires n < |rows| && Filed(broker) && s in broker && broker[s].occ
    ensures AdoptedOnce(rows, n, broker, s) ==> AdoptedOnce(rows, n + 1, broker, s)
  {
    LeftOnceIfHeld(rows[n], broker, s);
    TimesConcat(Orphans(rows, n, broker), Survivors(rows[n], broker), broker[s].position);
  }

  lemma {:induction false} LeftOnceIfHeld(r: Row, broker: map<string, Holding>, s: string)
    requires Filed(broker) && s in broker && broker[s].occ
    ensures TimesLeft(Survivors(r, broker), broker[s].position) == if LeavesLong(r, broker, s) then 1 else 0
  {
    var p1, p2 := Pick(RolesOf(r).long1, broker), Pick(RolesOf(r).long2, broker);
    PickOnce(RolesOf(r).long1, broker, s);
    PickOnce(RolesOf(r).long2, broker, s);
    TimesConcat(p1, p2, broker[s].position);
  }

  lemma {:induction false} PickOnce(symbol: string, broker: map<string, Holding>, s: string)
    requires Filed(broker) && s in broker && broker[s].occ
    ensures TimesLeft(Pick(symbol, broker), broker[s].position) == if symbol == s then 1 else 0
  {
    var p := Pick(symbol, broker);
    assert |p| == 1 ==> p[..0] == [];
  }

  // --- Contracts --------------------------------------------------------------------------------

  function Is(symbol: string, s: string): nat {
    if symbol == s then 1 else 0
  }

  /** How many of a symbol one contract of the row holds; a butterfly's body is held twice. */
  function PerContract(r: Row, s: string): nat {
    if r.condor then Is(r.shortSymbol, s) + Is(r.longSymbol, s)
    else if r.butterfly then Is(r.lowerSymbol, s) + 2 * Is(r.centerSymbol, s) + Is(r.upperSymbol, s)
    else Is(r.optionSymbol, s)
  }

  function Lot(r: Row, s: string): nat {
    r.contracts * PerContract(r, s)
  }

  /** The contracts the rows manage in a symbol. */
  function Managed(rows: seq<Row>, s: string): nat {
    if rows == [] then 0 else Managed(rows[..|rows| - 1], s) + Lot(rows[|rows| - 1], s)
  }

  /** The contracts that the stripped ones of the first n rows manage in a long leg. */
  function StrippedLots(rows: seq<Row>, n: nat, broker: map<string, Holding>, s: string): nat
    requires n <= |rows|
  {
    if n == 0 then 0
    else StrippedLots(rows, n - 1, broker, s) + if LeavesLong(rows[n - 1], broker, s) then Lot(rows[n - 1], s) else 0
  }

  function Quantity(p: Position): nat {
    if p.quantity < 0 then -p.quantity else p.quantity
  }

  /** How many times a pass adopts the holding in a symbol. */
  function Adoptions(rows: seq<Row>, broker: map<string, Holding>, s: string): nat
    requires s in broker
  {
    if broker[s].occ then StrippedHolding(rows, |rows|, broker, s) else 0
  }

  lemma {:induction false} ManagedConcat(a: seq<Row>, b: seq<Row>, s: string)
    ensures Managed(a + b, s) == Managed(a, s) + Managed(b, s)
    decreases |b|
  {
    if b == [] {
      assert a + b == a;
    } else {
      var init := b[..|b| - 1];
      assert (a + b)[..|a + b| - 1] == a + init;
      ManagedConcat(a, init, s);
    }
  }

  /** A closed row manages a held symbol only as a long leg it leaves behind. */
  lemma {:induction false} ClosedLot(r: Row, broker: map<string, Holding>, s: string)
    requires Filed(broker) && s in broker && !FateOf(r, broker.Keys).Keep?
    ensures Lot(r, s) == if LeavesLong(r, broker, s) then Lot(r, s) else 0
  {
    if PerContract(r, s) > 0 {
      assert s in Legs(r);
      StrippedLeavesItsLong(r, broker, s);
    }
  }

  /** What the rows manage is split between those kept and those stripped. */
  lemma {:induction false} ManagedSplit(rows: seq<Row>, n: nat, broker: map<string, Holding>, s: string)
    requires n <= |rows| && Filed(broker) && s in broker
    ensures Managed(rows[..n], s) == Managed(Kept(rows, n, broker.Keys), s) + StrippedLots(rows, n, broker, s)
  {
    if n > 0 {
      var r, kept := rows[n - 1], Kept(rows, n - 1, broker.Keys);
      ManagedSplit(rows, n - 1, broker, s);
      assert rows[..n][..n - 1] == rows[..n - 1];
      if FateOf(r, broker.Keys).Keep? {
        assert (kept + [r])[..|kept|] == kept;
      } else {
        ClosedLot(r, broker, s);
        assert kept + [] == kept;
      }
    }
  }

  lemma {:induction false} OneMoreTime(k: nat, q: nat)
    ensures (k + 1) * q == k * q + q
  {
  }

  lemma {:induction false} ManagedNumbered(ps: seq<Position>, id: nat, broker: map<string, Holding>, s: string)
    requires Filed(broker) && s in broker && forall p :: p in ps ==> OnFile(p, broker)
    ensures Managed(Numbered(ps, id), s) == TimesLeft(ps, broker[s].position) * Quantity(broker[s].position)
  {
    if ps != [] {
      var init, p := ps[..|ps| - 1], ps[|ps| - 1];
      ManagedNumbered(init, id, broker, s);
      assert Numbered(ps, id)[..|ps| - 1] == Numbered(init, id);
      assert p in ps;
      assert Numbered(ps, id)[|ps| - 1] == AdoptedRow(p, id + |ps| - 1);
      OneMoreTime(TimesLeft(init, broker[s].position), Quantity(broker[s].position));
      AdoptedLot(p, id + |ps| - 1, s);
    }
  }

  lemma {:induction false} AdoptedLot(p: Position, id: nat, s: string)
    ensures Lot(AdoptedRow(p, id), s) == if p.symbol == s then Quantity(p) else 0
  {
  }

  lemma {:induction false} TimesAdopted(rows: seq<Row>, broker: map<string, Holding>, s: string)
    requires Filed(broker) && s in broker
    ensures TimesLeft(Orphans(rows, |rows|, broker), broker[s].position) == Adoptions(rows, broker, s)
  {
    if broker[s].occ {
      AdoptedOncePerStrippedRow(rows, |rows|, broker, s);
    } else {
      OrphansOnFile(rows, |rows|, broker);
      NeverLeft(Orphans(rows, |rows|, broker), broker[s].position);
    }
  }

  lemma {:induction false} NeverLeft(ps: seq<Position>, p: Position)
    requires p !in ps
    ensures TimesLeft(ps, p) == 0
  {
    if ps != [] {
      NeverLeft(ps[..|ps| - 1], p);
    }
  }

  /** After a pass the rows manage, of a held symbol, what the kept rows did and the broker's whole quantity
      once for every stripped row that held it. */
  lemma {:induction false} ManagedAfter(rows: seq<Row>, broker: map<string, Holding>, id: nat, s: string)
    requires Filed(broker) && s in broker
    ensures Managed(After(rows, broker, id), s)
            == Managed(Kept(rows, |rows|, broker.Keys), s)
               + Adoptions(rows, broker, s) * Quantity(broker[s].position)
  {
    var orphans := Orphans(rows, |rows|, broker);
    OrphansOnFile(rows, |rows|, broker);
    ManagedConcat(Kept(rows, |rows|, broker.Keys), Numbered(orphans, id), s);
    ManagedNumbered(orphans, id, broker, s);
    TimesAdopted(rows, broker, s);
  }

  /** The contracts managed in a held symbol are conserved exactly when the stripped rows' contracts in it
      are the broker's whole quantity, once for each of those rows. */
  lemma {:induction false} QuantityConservedIff(rows: seq<Row>, broker: map<string, Holding>, id: nat, s: string)
    requires Filed(broker) && s in broker
    ensures Managed(After(rows, broker, id), s) == Managed(rows, s)
       <==> StrippedLots(rows, |rows|, broker, s) == Adoptions(rows, broker, s) * Quantity(broker[s].position)
  {
    ManagedAfter(rows, broker, id, s);
    ManagedSplit(rows, |rows|, broker, s);
    assert rows[..|rows|] == rows;
  }

  lemma {:induction false} OnceOrNever(kept: nat, stripped: nat, times: nat, whole: nat)
    requires kept + stripped == whole && whole > 0 && (times == 0 ==> stripped == 0)
    ensures stripped == times * whole <==> times == 0 || (times == 1 && kept == 0)
  {
    if times >= 2 {
      assert times * whole == 2 * whole + (times - 2) * whole;
      assert (times - 2) * whole >= 0;
    }
  }

  lemma {:induction false} NoStrippedLots(rows: seq<Row>, n: nat, broker: map<string, Holding>, s: string)
    requires n <= |rows| && StrippedHolding(rows, n, broker, s) == 0
    ensures StrippedLots(rows, n, broker, s) == 0
  {
    if n > 0 {
      NoStrippedLots(rows, n - 1, broker, s);
    }
  }

  /** When the books agree, the broker holding what the rows manage in a leg that parses, the pass conserves
      the contracts exactly when no stripped row holds the leg, or one does and no kept row manages it. */
  lemma {:induction false} AgreeingBooksConservedIff(rows: seq<Row>, broker: map<string, Holding>, id: nat, s: string)
    requires Filed(broker) && s in broker && broker[s].occ
    requires Quantity(broker[s].position) == Managed(rows, s) > 0
    ensures Managed(After(rows, broker, id), s) == Managed(rows, s)
       <==> var times := StrippedHolding(rows, |rows|, broker, s);
            times == 0 || (times == 1 && Managed(Kept(rows, |rows|, broker.Keys), s) == 0)
  {
    QuantityConservedIff(rows, broker, id, s);
    ManagedSplit(rows, |rows|, broker, s);
    assert rows[..|rows|] == rows;
    if StrippedHolding(rows, |rows|, broker, s) == 0 {
      NoStrippedLots(rows, |rows|, broker, s);
    }
    OnceOrNever(Managed(Kept(rows, |rows|, broker.Keys), s), StrippedLots(rows, |rows|, broker, s),
                StrippedHolding(rows, |rows|, broker, s), Managed(rows, s));
  }

  function Vertical(id: nat, short: string, long: string): Row {
    Row(id, true, false, false, 1, "", short, long, "", "", "")
  }

  /** Two short calls, and the long call over them. */
  const SHORT_GONE := "SPXW  260711C06300000"
  const SHORT_HELD := "SPXW  260711C06350000"
  const LONG_LEG := "SPXW  260711C06400000"

  lemma {:induction false} ReadingOfOne(p: Position)
    requires p.symbol != ""
    ensures BySymbol([p]) == map[p.symbol := Holding(p, Parses(p.symbol))]
  {
    assert [p][..0] == [] && BySymbol([]) == map[];
  }

  lemma {:induction false} ReadingOfTwo(p: Position, q: Position)
    requires p.symbol != "" && q.symbol != "" && p.symbol != q.symbol
    ensures BySymbol([p, q])
            == map[p.symbol := Holding(p, Parses(p.symbol)), q.symbol := Holding(q, Parses(q.symbol))]
  {
    ReadingOfOne(p);
    assert [p, q][..1] == [p];
  }

  lemma {:induction false} LongLegParses()
    ensures Parses(LONG_LEG)
  {
    var tail := "260711C06400000";
    assert tail[..6] == "260711" && tail[7..] == "06400000";
    assert LONG_LEG[0] == 'S' && LONG_LEG[6..] == tail;
    ParsesByTail(LONG_LEG);
  }

  lemma {:induction false} ParsesByTail(symbol: string)
    requires |symbol| >= 15 && symbol[0] != '.' && !IsSpace(symbol[|symbol| - 1])
    requires var tail := symbol[|symbol| - 15..];
      tail[6] in "CPcp" && Decimal.IsNumeral(tail[..6]) && Decimal.IsNumeral(tail[7..])
    ensures Parses(symbol)
  {
  }

  lemma {:induction false} ManagedOfOne(r: Row, s: string)
    ensures Managed([r], s) == Lot(r, s)
  {
    assert [r][..0] == [];
  }

  lemma {:induction false} ManagedOfTwo(r0: Row, r1: Row, s: string)
    ensures Managed([r0, r1], s) == Lot(r0, s) + Lot(r1, s)
  {
    ManagedOfOne(r0, s);
    assert [r0, r1][..1] == [r0];
  }

  lemma {:induction false} StrippedThenKept(r0: Row, r1: Row, broker: map<string, Holding>, s: string)
    requires FateOf(r0, broker.Keys).Stripped? && RolesOf(r0).long1 == s && FateOf(r1, broker.Keys).Keep?
    ensures Kept([r0, r1], 2, broker.Keys) == [r1] && StrippedHolding([r0, r1], 2, broker, s) == 1
  {
    assert Kept([r0, r1], 1, broker.Keys) == [] && StrippedHolding([r0, r1], 1, broker, s) == 1;
  }

  lemma {:induction false} ManagedThen(r0: Row, r1: Row, broker: map<string, Holding>, s: string)
    requires Filed(broker) && s in broker && broker[s].occ
    requires FateOf(r0, broker.Keys).Stripped? && RolesOf(r0).long1 == s && FateOf(r1, broker.Keys).Keep?
    ensures Managed(After([r0, r1], broker, 2), s) == Lot(r1, s) + Quantity(broker[s].position)
  {
    StrippedThenKept(r0, r1, broker, s);
    ManagedOfOne(r1, s);
    ManagedAfter([r0, r1], broker, 2, s);
  }

  lemma {:induction false} LegsDiffer()
    ensures SHORT_GONE != SHORT_HELD && SHORT_GONE != LONG_LEG && SHORT_HELD != LONG_LEG
  {
    assert SHORT_GONE[15] == '3' && SHORT_HELD[15] == '3' && LONG_LEG[15] == '4';
    assert SHORT_GONE[16] == '0' && SHORT_HELD[16] == '5';
  }

  /** The contracts managed in a long leg that a stripped and a kept vertical share, when the broker holds both. */
  lemma {:induction false} SharedLeg(gone: string, held: string, long: string, quantity: nat)
    requires "" !in {gone, held, long} && gone != held && gone != long && held != long && Parses(long)
    ensures var rows := [Vertical(0, gone, long), Vertical(1, held, long)];
            var broker := BySymbol([Position(held, true, 1), Position(long, false, quantity)]);
      Managed(rows, long) == 2 && Managed(After(rows, broker, 2), long) == 1 + quantity
  {
    var r0, r1 := Vertical(0, gone, long), Vertical(1, held, long);
    var p, q := Position(held, true, 1), Position(long, false, quantity);
    ReadingOfTwo(p, q);
    var broker := BySymbol([p, q]);
    assert Lot(r0, long) == 1 && Lot(r1, long) == 1;
    ManagedOfTwo(r0, r1, long);
    ManagedThen(r0, r1, broker, long);
  }

  lemma {:induction false} ManagedByOne(r: Row, broker: map<string, Holding>, s: string)
    requires Filed(broker) && s in broker && broker[s].occ
    requires FateOf(r, broker.Keys).Stripped? && RolesOf(r).long1 == s
    ensures Managed(After([r], broker, 1), s) == Quantity(broker[s].position)
  {
    assert Kept([r], 0, broker.Keys) == [] && StrippedHolding([r], 0, broker, s) == 0;
    assert Kept([r], 1, broker.Keys) == [] && StrippedHolding([r], 1, broker, s) == 1;
    ManagedAfter([r], broker, 1, s);
  }

  /** A stripped vertical beside a kept one on the same long leg: two contracts become three, though the
      broker holds two. */
  lemma {:induction false} SharedLegIsOverAdopted()
    ensures var rows := [Vertical(0, SHORT_GONE, LONG_LEG), Vertical(1, SHORT_HELD, LONG_LEG)];
            var broker := BySymbol([Position(SHORT_HELD, true, 1), Position(LONG_LEG, false, 2)]);
      Managed(rows, LONG_LEG) == 2 && Managed(After(rows, broker, 2), LONG_LEG) == 3
  {
    LegsDiffer();
    LongLegParses();
    SharedLeg(SHORT_GONE, SHORT_HELD, LONG_LEG, 2);
  }

  /** The contracts managed in a stripped vertical's long leg are those the broker holds. */
  lemma {:induction false} StrippedAlone(gone: string, long: string, quantity: nat)
    requires "" !in {gone, long} && gone != long && Parses(long)
    ensures var rows, broker := [Vertical(0, gone, long)], BySymbol([Position(long, false, quantity)]);
      Managed(rows, long) == 1 && Managed(After(rows, broker, 1), long) == quantity
  {
    var r, p := Vertical(0, gone, long), Position(long, false, quantity);
    ReadingOfOne(p);
    var broker := BySymbol([p]);
    assert Lot(r, long) == 1 && FateOf(r, broker.Keys) == Stripped;
    ManagedOfOne(r, long);
    ManagedByOne(r, broker, long);
  }

  /** A lot bought by hand in a stripped vertical's long leg is adopted with it. */
  lemma {:induction false} ManualLotIsAdopted()
    ensures var rows := [Vertical(0, SHORT_GONE, LONG_LEG)];
            var broker := BySymbol([Position(LONG_LEG, false, 2)]);
      Managed(rows, LONG_LEG) == 1 && Managed(After(rows, broker, 1), LONG_LEG) == 2
  {
    LegsDiffer();
    LongLegParses();
    StrippedAlone(SHORT_GONE, LONG_LEG, 2);
  }

  /** A stripped vertical whose long leg is held under a symbol that does not parse: the leg is held still,
      and no row covers it any more. */
  lemma {:induction false} UnparsedLegIsUncovered()
    ensures var rows, broker := [Vertical(0, "A", "L")], BySymbol([Position("L", false, 1)]);
      && Covered(rows, broker.Keys) == {"L"} && Covered(After(rows, broker, 1), broker.Keys) == {}
      && "L" in broker
  {
    var r, p := Vertical(0, "A", "L"), Position("L", false, 1);
    ReadingOfOne(p);
    var broker := BySymbol([p]);
    assert !Parses("L");
    assert r in [r] && "L" in Legs(r);
    assert FateOf(r, broker.Keys) == Stripped;
    assert Kept([r], 0, broker.Keys) == [] && Kept([r], 1, broker.Keys) == [];
    CoverageExact([r], broker, 1);
  }
}
