/**
 * The child-first wipe of ticket data under foreign keys that restrict, cascade or set null, in one
 * transaction. Table names and referencing columns are enumerated; ids are unique per table.
 */
module Wipe {
  import opened Base

  datatype Table = TicketStatusHistory | Assignment | TicketDocument | TicketClerkReport | PromoRedemption
    | InvoiceItem | Invoice | Payment | WalletTransaction | CaseDocument | CaseEvent | TicketIntakeDraft
    | Notification | Ticket | Case | User | Service | PromoCode | PersonalFile | OtherTable(name: string)

  datatype Column = ConsumerId | ServiceId | CaseId | PromoCodeId | TicketId | RepresentativeId | UserId
    | InvoiceId | AttachedTicketId

  datatype Action = Restrict | Cascade | SetNull

  datatype ForeignKey = ForeignKey(child: Table, column: Column, parent: Table, action: Action)

  /** A record with its non-null references; `balance` is `User.walletBalance`. */
  datatype Record = Record(table: Table, id: nat, refs: map<Column, nat>, balance: int)

  type Db = set<Record>

  /** `STEPS`. */
  const STEPS: seq<Table> :=
    [TicketStatusHistory, Assignment, TicketDocument, TicketClerkReport, PromoRedemption, InvoiceItem, Invoice,
     Payment, WalletTransaction, CaseDocument, CaseEvent, TicketIntakeDraft, Notification, Ticket, Case]

  /** Every relation of the schema with a wiped table on either side; a required one restricts by default. */
  const SCHEMA: seq<ForeignKey> := TICKET_KEYS + MONEY_KEYS + CASE_KEYS + PLAIN_KEYS

  const TICKET_KEYS: seq<ForeignKey> :=
    [ForeignKey(TicketStatusHistory, TicketId, Ticket, Restrict), ForeignKey(Ticket, CaseId, Case, SetNull),
     ForeignKey(Ticket, PromoCodeId, PromoCode, SetNull), ForeignKey(TicketClerkReport, TicketId, Ticket, Cascade),
     ForeignKey(Assignment, TicketId, Ticket, Restrict), ForeignKey(TicketDocument, TicketId, Ticket, Restrict)]

  const MONEY_KEYS: seq<ForeignKey> :=
    [ForeignKey(WalletTransaction, UserId, User, Restrict), ForeignKey(WalletTransaction, TicketId, Ticket, SetNull),
     ForeignKey(InvoiceItem, InvoiceId, Invoice, Cascade), ForeignKey(InvoiceItem, TicketId, Ticket, Restrict),
     ForeignKey(Payment, TicketId, Ticket, Restrict)]

  const PLAIN_KEYS: seq<ForeignKey> :=
    [ForeignKey(Ticket, ConsumerId, User, Restrict), ForeignKey(Ticket, ServiceId, Service, Restrict),
     ForeignKey(PromoRedemption, PromoCodeId, PromoCode, Restrict), ForeignKey(Assignment, RepresentativeId, User, Restrict),
     ForeignKey(Invoice, ConsumerId, User, Restrict), ForeignKey(Notification, UserId, User, Restrict),
     ForeignKey(Case, ConsumerId, User, Restrict), ForeignKey(PersonalFile, UserId, User, Restrict)]

  const CASE_KEYS: seq<ForeignKey> :=
    [ForeignKey(PersonalFile, AttachedTicketId, Ticket, SetNull),
     ForeignKey(CaseEvent, CaseId, Case, Cascade), ForeignKey(CaseEvent, TicketId, Ticket, SetNull),
     ForeignKey(CaseDocument, CaseId, Case, Cascade), ForeignKey(CaseDocument, TicketId, Ticket, SetNull)]

  // ---- What the database does ----

  predicate Links(fk: ForeignKey, r: Record, p: Record) {
    fk.child == r.table && fk.parent == p.table && fk.column in r.refs && r.refs[fk.column] == p.id
  }

  predicate LinksInto(fks: seq<ForeignKey>, action: Action, r: Record, gone: Db) {
    exists fk, p :: fk in fks && p in gone && fk.action == action && Links(fk, r, p)
  }

  function RowsOf(db: Db, t: Table): Db {
    set r | r in db && r.table == t
  }

  /** The rows that go when `gone` goes: cascades, and cascades of cascades. */
  function Doomed(fks: seq<ForeignKey>, db: Db, gone: Db): (all: Db)
    requires gone <= db
    ensures gone <= all <= db
    decreases |db - gone|
  {
    var more := set r | r in db && r !in gone && LinksInto(fks, Cascade, r, gone);
    if more == {} then gone
    else
      assert db - (gone + more) < db - gone by {
        var r :| r in more;
        assert r in db - gone && r !in db - (gone + more);
      }
      Shrinks(db - (gone + more), db - gone);
      Doomed(fks, db, gone + more)
  }

  lemma Shrinks(a: Db, b: Db)
    requires a < b
    ensures |a| < |b|
  {
    assert b == a + (b - a) && b - a != {};
  }

  predicate Blocked(fks: seq<ForeignKey>, db: Db, gone: Db) {
    exists r :: r in db && r !in gone && LinksInto(fks, Restrict, r, gone)
  }

  predicate Nulled(fks: seq<ForeignKey>, r: Record, column: Column, gone: set<(Table, nat)>)
    requires column in r.refs
  {
    exists fk :: fk in fks && fk.action.SetNull? && fk.child == r.table && fk.column == column
                 && (fk.parent, r.refs[column]) in gone
  }

  /** The record with its references to deleted rows set to null. */
  function Cleared(fks: seq<ForeignKey>, r: Record, gone: set<(Table, nat)>): Record {
    r.(refs := map c | c in r.refs && !Nulled(fks, r, c, gone) :: r.refs[c])
  }

  function Keys(db: Db): set<(Table, nat)> {
    set r | r in db :: (r.table, r.id)
  }

  /** Every row of the database that a cascade links into the set is in it. */
  predicate CascadeClosed(fks: seq<ForeignKey>, db: Db, all: Db) {
    forall r :: r in db && LinksInto(fks, Cascade, r, all) ==> r in all
  }

  lemma DoomedCloses(fks: seq<ForeignKey>, db: Db, gone: Db)
    requires gone <= db
    ensures CascadeClosed(fks, db, Doomed(fks, db, gone))
    decreases |db - gone|
  {
    var more := set r | r in db && r !in gone && LinksInto(fks, Cascade, r, gone);
    if more != {} {
      var r :| r in more;
      assert r in db - gone && r !in db - (gone + more);
      Shrinks(db - (gone + more), db - gone);
      DoomedCloses(fks, db, gone + more);
    } else {
      forall r | r in db && LinksInto(fks, Cascade, r, gone) ensures r in gone { assert r !in more; }
    }
  }

  /** What goes with the deleted rows is the least set that holds them and is closed under cascades. */
  lemma {:induction false} DoomedIsLeast(fks: seq<ForeignKey>, db: Db, gone: Db, all: Db)
    requires gone <= all <= db && CascadeClosed(fks, db, all)
    ensures gone <= Doomed(fks, db, gone) <= all && CascadeClosed(fks, db, Doomed(fks, db, gone))
    decreases |db - gone|
  {
    DoomedCloses(fks, db, gone);
    var more := set r | r in db && r !in gone && LinksInto(fks, Cascade, r, gone);
    if more != {} {
      forall r | r in more ensures r in all {
        var fk, p :| fk in fks && p in gone && fk.action == Cascade && Links(fk, r, p);
        assert LinksInto(fks, Cascade, r, all);
      }
      var r :| r in more;
      assert r in db - gone && r !in db - (gone + more);
      Shrinks(db - (gone + more), db - gone);
      DoomedIsLeast(fks, db, gone + more, all);
    }
  }

  /** Some SET NULL column `c` of the row points at one of the deleted rows. */
  predicate LosesColumn(fks: seq<ForeignKey>, r: Record, c: Column, gone: Db) {
    c in r.refs && exists fk, p :: fk in fks && p in gone && fk.action == SetNull && fk.column == c && Links(fk, r, p)
  }

  /** The same row without those references. */
  predicate LosesOnly(fks: seq<ForeignKey>, r: Record, gone: Db, x: Record) {
    && (x.table, x.id, x.balance) == (r.table, r.id, r.balance)
    && (forall c :: c in x.refs <==> c in r.refs && !LosesColumn(fks, r, c, gone))
    && (forall c :: c in x.refs && c in r.refs ==> x.refs[c] == r.refs[c])
  }

  lemma ClearedExactly(fks: seq<ForeignKey>, r: Record, gone: Db, x: Record)
    ensures x == Cleared(fks, r, Keys(gone)) <==> LosesOnly(fks, r, gone, x)
  {
    forall c | c in r.refs ensures Nulled(fks, r, c, Keys(gone)) <==> LosesColumn(fks, r, c, gone) {
      if fk, p :| fk in fks && p in gone && fk.action == SetNull && fk.column == c && Links(fk, r, p) {
        assert (fk.parent, r.refs[c]) in Keys(gone);
      }
      if fk :| fk in fks && fk.action.SetNull? && fk.child == r.table && fk.column == c && (fk.parent, r.refs[c]) in Keys(gone) {
        var p :| p in gone && (p.table, p.id) == (fk.parent, r.refs[c]);
        assert Links(fk, r, p);
      }
    }
    var y := Cleared(fks, r, Keys(gone));
    assert LosesOnly(fks, r, gone, y);
    if LosesOnly(fks, r, gone, x) { assert x.refs == y.refs; }
  }

  datatype Deletion = Deletion(db: Db, count: nat)

  /** `deleteMany()` on a whole table: None is the foreign-key error. */
  function DeleteMany(fks: seq<ForeignKey>, db: Db, t: Table): Option<Deletion> {
    var gone := Doomed(fks, db, RowsOf(db, t));
    if Blocked(fks, db, gone) then None
    else Some(Deletion(set r | r in db && r !in gone :: Cleared(fks, r, Keys(gone)), |RowsOf(db, t)|))
  }

  /**
   * A table is deleted unless a row that stays restricts one that goes; then every other row stays, without its
   * references to rows that went.
   */
  lemma DeletesExactly(fks: seq<ForeignKey>, db: Db, t: Table)
    ensures var gone, d := Doomed(fks, db, RowsOf(db, t)), DeleteMany(fks, db, t);
            && (d.None? <==> exists r :: r in db && r !in gone && LinksInto(fks, Restrict, r, gone))
            && (d.Some? ==> forall x :: x in d.value.db <==> exists r :: r in db && r !in gone && LosesOnly(fks, r, gone, x))
  {
    var gone, d := Doomed(fks, db, RowsOf(db, t)), DeleteMany(fks, db, t);
    if d.Some? {
      forall x ensures x in d.value.db <==> exists r :: r in db && r !in gone && LosesOnly(fks, r, gone, x) {
        forall r ensures x == Cleared(fks, r, Keys(gone)) <==> LosesOnly(fks, r, gone, x) { ClearedExactly(fks, r, gone, x); }
      }
    }
  }

  /** The deletions in order, with their counts. */
  datatype Wiped = Wiped(db: Db, counts: seq<nat>)

  function WipeSteps(fks: seq<ForeignKey>, db: Db, steps: seq<Table>): Option<Wiped> {
    if steps == [] then Some(Wiped(db, []))
    else match WipeSteps(fks, db, steps[..|steps| - 1])
      case None => None
      case Some(w) =>
        match DeleteMany(fks, w.db, steps[|steps| - 1])
        case None => None
        case Some(d) => Some(Wiped(d.db, w.counts + [d.count]))
  }

  lemma {:induction false} StepsFail(fks: seq<ForeignKey>, db: Db, steps: seq<Table>, i: nat)
    requires i <= |steps| && WipeSteps(fks, db, steps[..i]).None?
    ensures WipeSteps(fks, db, steps).None?
  {
    if i == |steps| {
      assert steps[..i] == steps;
    } else {
      assert steps[..|steps| - 1][..i] == steps[..i];
      StepsFail(fks, db, steps[..|steps| - 1], i);
    }
  }

  function ZeroBalance(r: Record): Record {
    if r.table.User? then r.(balance := 0) else r
  }

  function ZeroBalances(db: Db): Db {
    set r | r in db :: ZeroBalance(r)
  }

  /** The reset empties every wallet and changes nothing else of any row; it reports the users it changes. */
  lemma WalletsZeroed(db: Db, r: Record)
    ensures r in ZeroBalances(db)
            <==> if r.table == User then r.balance == 0 && exists b: int :: r.(balance := b) in db else r in db
    ensures r in Holders(db) <==> r in db && r.table == User && r.balance != 0
  {
    if r in ZeroBalances(db) {
      var x :| x in db && r == ZeroBalance(x);
      if r.table == User { assert r.(balance := x.balance) == x; }
    }
    if b: int :| r.table == User && r.balance == 0 && r.(balance := b) in db {
      assert r == ZeroBalance(r.(balance := b));
    }
    if r.table != User && r in db { assert r == ZeroBalance(r); }
  }

  /** The users whose wallet the reset changes. */
  function Holders(db: Db): Db {
    set r | r in db && r.table.User? && r.balance != 0
  }

  // ---- The script ----

  datatype Args = Args(apply: bool, resetWallets: bool, production: bool, allowed: bool)

  datatype Outcome = Refused | DryRun(plan: seq<nat>) | Failed | Done(deleted: seq<nat>)

  function Counts(db: Db, steps: seq<Table>): (counts: seq<nat>)
    ensures |counts| == |steps| && forall i :: 0 <= i < |steps| ==> counts[i] == |RowsOf(db, steps[i])|
  {
    if steps == [] then [] else Counts(db, steps[..|steps| - 1]) + [|RowsOf(db, steps[|steps| - 1])|]
  }

  /** What the wallet reset adds to the report. */
  function WalletCount(args: Args, db: Db): seq<nat> {
    if args.resetWallets then [|Holders(db)|] else []
  }

  /** The transaction's statements and, last, its commit. */
  function Moments(steps: seq<Table>, args: Args): nat {
    |steps| + (if args.resetWallets then 1 else 0) + 1
  }

  class Database {
    var db: Db

    /**
     * `main`; `fault` is the moment at which the connection or the time-out ends the transaction, if any:
     * a step, the wallet reset or the commit.
     */
    method Clear(fks: seq<ForeignKey>, steps: seq<Table>, args: Args, fault: Option<nat>) returns (o: Outcome)
      modifies this
      ensures o.Refused? <==> args.apply && (args.production || !args.allowed)
      ensures o.DryRun? <==> !args.apply
      ensures o.DryRun? ==> o.plan == Counts(old(db), steps)
      ensures !o.Done? ==> db == old(db)
      ensures o.Done? <==> && args.apply && !args.production && args.allowed
                           && (fault.Some? ==> fault.value >= |steps| + (if args.resetWallets then 2 else 1))
                           && WipeSteps(fks, old(db), steps).Some?
      ensures o.Done? ==> var w := WipeSteps(fks, old(db), steps).value;
                          && o.deleted == w.counts + WalletCount(args, w.db)
                          && db == if args.resetWallets then ZeroBalances(w.db) else w.db
    {
      if args.apply && (args.production || !args.allowed) { return Refused; }
      var plan := Counts(db, steps);
      if !args.apply { return DryRun(plan); }
      var before := db;
      var out: seq<nat> := [];
      for i := 0 to |steps|
        invariant WipeSteps(fks, before, steps[..i]) == Some(Wiped(db, out))
        invariant fault.Some? ==> fault.value >= i
      {
        assert steps[..i + 1][..i] == steps[..i];
        var deletion := DeleteMany(fks, db, steps[i]);
        if deletion.None? { StepsFail(fks, before, steps, i + 1); }
        if deletion.None? || fault == Some(i) {
          db := before;
          return Failed;
        }
        db := deletion.value.db;
        out := out + [deletion.value.count];
      }
      assert steps[..|steps|] == steps;
      if fault.Some? && fault.value < Moments(steps, args) {
        db := before;
        return Failed;
      }
      if args.resetWallets {
        out := out + [|Holders(db)|];
        db := ZeroBalances(db);
      }
      o := Done(out);
    }
  }

  // ---- Child first ----

  predicate Before(steps: seq<Table>, a: Table, b: Table) {
    exists i, j :: 0 <= i < j < |steps| && steps[i] == a && steps[j] == b
  }

  /** Every child that would block or be dragged along goes before its parent. */
  predicate ChildFirst(fks: seq<ForeignKey>, steps: seq<Table>) {
    && Distinct(steps)
    && forall fk :: fk in fks && fk.parent in steps && !fk.action.SetNull? ==> Before(steps, fk.child, fk.parent)
  }

  predicate Unique(db: Db) {
    forall r, s :: r in db && s in db && (r.table, r.id) == (s.table, s.id) ==> r == s
  }

  function Listed(db: Db, tables: set<Table>): Db {
    set r | r in db && r.table in tables
  }

  /** The rows of the other tables, their references into the listed tables set to null. */
  function Survivors(fks: seq<ForeignKey>, db: Db, tables: set<Table>): Db {
    set r | r in db && r.table !in tables :: Cleared(fks, r, Keys(Listed(db, tables)))
  }

  /** A survivor is a row of another table that lost its references into the listed tables, and nothing else. */
  lemma SurvivorsExactly(fks: seq<ForeignKey>, db: Db, tables: set<Table>, x: Record)
    ensures x in Survivors(fks, db, tables)
            <==> exists r :: r in db && r.table !in tables && LosesOnly(fks, r, Listed(db, tables), x)
  {
    forall r ensures x == Cleared(fks, r, Keys(Listed(db, tables))) <==> LosesOnly(fks, r, Listed(db, tables), x) {
      ClearedExactly(fks, r, Listed(db, tables), x);
    }
  }

  lemma ClearedTwice(fks: seq<ForeignKey>, r: Record, a: set<(Table, nat)>, b: set<(Table, nat)>)
    ensures Cleared(fks, Cleared(fks, r, a), b) == Cleared(fks, r, a + b)
  {
    var once := Cleared(fks, r, a);
    forall c | c in r.refs ensures Nulled(fks, r, c, a + b) <==> Nulled(fks, r, c, a) || Nulled(fks, r, c, b) {
    }
    assert forall c :: c in once.refs ==> (Nulled(fks, once, c, b) <==> Nulled(fks, r, c, b));
    assert Cleared(fks, once, b).refs == Cleared(fks, r, a + b).refs;
  }

  lemma NothingGone(fks: seq<ForeignKey>, db: Db)
    ensures Survivors(fks, db, {}) == db
  {
    assert Listed(db, {}) == {};
    forall r | r in db ensures Cleared(fks, r, Keys({})) == r {
      assert Cleared(fks, r, {}).refs == r.refs;
    }
    assert Keys({}) == {};
  }

  /** With a table's children already gone, deleting it drags and blocks nothing. */
  lemma NothingDragged(fks: seq<ForeignKey>, db: Db, t: Table)
    requires forall fk :: fk in fks && fk.parent == t && !fk.action.SetNull? ==> RowsOf(db, fk.child) == {}
    ensures Doomed(fks, db, RowsOf(db, t)) == RowsOf(db, t)
    ensures !Blocked(fks, db, RowsOf(db, t))
  {
    forall r, action | r in db && action != SetNull ensures !LinksInto(fks, action, r, RowsOf(db, t)) {
      assert forall fk :: fk in fks && fk.parent == t && !fk.action.SetNull? ==> r !in RowsOf(db, fk.child);
    }
  }

  lemma {:induction false} ImageSize(fks: seq<ForeignKey>, rows: Db, gone: set<(Table, nat)>)
    requires Unique(rows)
    ensures |set r | r in rows :: Cleared(fks, r, gone)| == |rows|
    decreases |rows|
  {
    var image := set r | r in rows :: Cleared(fks, r, gone);
    if rows != {} {
      var x :| x in rows;
      var rest := rows - {x};
      ImageSize(fks, rest, gone);
      var restImage := set r | r in rest :: Cleared(fks, r, gone);
      forall r | r in rest ensures Cleared(fks, r, gone) != Cleared(fks, x, gone) {
        assert (r.table, r.id) != (x.table, x.id);
      }
      assert image == restImage + {Cleared(fks, x, gone)};
    }
  }

  /** The rows of a table still to come: all of them, some references cleared. */
  lemma RowsToCome(fks: seq<ForeignKey>, db: Db, done: set<Table>, t: Table)
    requires t !in done && Unique(db)
    ensures var left := RowsOf(Survivors(fks, db, done), t);
            Keys(left) == Keys(RowsOf(db, t)) && |left| == |RowsOf(db, t)|
  {
    var gone := Keys(Listed(db, done));
    var left, own := RowsOf(Survivors(fks, db, done), t), RowsOf(db, t);
    assert left == set r | r in own :: Cleared(fks, r, gone);
    ImageSize(fks, own, gone);
    forall r | r in own ensures (r.table, r.id) in Keys(left) {
      assert Cleared(fks, r, gone) in left;
    }
  }

  lemma ListedOneMore(db: Db, done: set<Table>, t: Table)
    ensures Listed(db, done + {t}) == Listed(db, done) + RowsOf(db, t)
  {
  }

  lemma KeysNext(fks: seq<ForeignKey>, db: Db, done: set<Table>, t: Table)
    requires t !in done && Unique(db)
    ensures Keys(Listed(db, done + {t})) == Keys(Listed(db, done)) + Keys(RowsOf(Survivors(fks, db, done), t))
  {
    RowsToCome(fks, db, done, t);
    ListedOneMore(db, done, t);
    KeysOfBoth(Listed(db, done), RowsOf(db, t));
  }

  lemma KeysOfBoth(a: Db, b: Db)
    ensures Keys(a + b) == Keys(a) + Keys(b)
  {
  }

  /** What deleting the next table leaves of the rows still there. */
  function LeftBy(fks: seq<ForeignKey>, before: Db, t: Table): Db {
    set r | r in before && r !in RowsOf(before, t) :: Cleared(fks, r, Keys(RowsOf(before, t)))
  }

  /** A row left by two deletions is its record cleared of both tables' keys at once. */
  lemma LeftIn(fks: seq<ForeignKey>, db: Db, done: set<Table>, t: Table, x: Record)
    requires t !in done && Unique(db) && x in LeftBy(fks, Survivors(fks, db, done), t)
    ensures x in Survivors(fks, db, done + {t})
  {
    var before := Survivors(fks, db, done);
    var was, own := Keys(Listed(db, done)), Keys(RowsOf(before, t));
    KeysNext(fks, db, done, t);
    var once :| once in before && once !in RowsOf(before, t) && x == Cleared(fks, once, own);
    var r :| r in db && r.table !in done && once == Cleared(fks, r, was);
    ClearedTwice(fks, r, was, own);
    assert r.table !in done + {t} && x == Cleared(fks, r, was + own);
  }

  lemma SurvivorIn(fks: seq<ForeignKey>, db: Db, done: set<Table>, t: Table, x: Record)
    requires t !in done && Unique(db) && x in Survivors(fks, db, done + {t})
    ensures x in LeftBy(fks, Survivors(fks, db, done), t)
  {
    var before := Survivors(fks, db, done);
    var was, own := Keys(Listed(db, done)), Keys(RowsOf(before, t));
    KeysNext(fks, db, done, t);
    var r :| r in db && r.table !in done + {t} && x == Cleared(fks, r, was + own);
    ClearedTwice(fks, r, was, own);
    assert Cleared(fks, r, was) in before && Cleared(fks, r, was) !in RowsOf(before, t);
  }

  lemma LeftIsSurvivors(fks: seq<ForeignKey>, db: Db, done: set<Table>, t: Table)
    requires t !in done && Unique(db)
    ensures LeftBy(fks, Survivors(fks, db, done), t) == Survivors(fks, db, done + {t})
  {
    var left, kept := LeftBy(fks, Survivors(fks, db, done), t), Survivors(fks, db, done + {t});
    forall x | x in left ensures x in kept { LeftIn(fks, db, done, t, x); }
    forall x | x in kept ensures x in left { SurvivorIn(fks, db, done, t, x); }
  }

  lemma DeleteNext(fks: seq<ForeignKey>, db: Db, done: set<Table>, t: Table)
    requires t !in done && Unique(db)
    requires forall fk :: fk in fks && fk.parent == t && !fk.action.SetNull? ==> fk.child in done
    ensures DeleteMany(fks, Survivors(fks, db, done), t)
            == Some(Deletion(Survivors(fks, db, done + {t}), |RowsOf(db, t)|))
  {
    var before := Survivors(fks, db, done);
    assert forall fk :: fk in fks && fk.parent == t && !fk.action.SetNull? ==> RowsOf(before, fk.child) == {};
    NothingDragged(fks, before, t);
    RowsToCome(fks, db, done, t);
    LeftIsSurvivors(fks, db, done, t);
    assert DeleteMany(fks, before, t) == Some(Deletion(LeftBy(fks, before, t), |RowsOf(before, t)|));
  }

  lemma ChildrenDone(fks: seq<ForeignKey>, steps: seq<Table>, n: nat)
    requires ChildFirst(fks, steps) && n < |steps|
    ensures steps[n] !in Elements(steps[..n])
    ensures forall fk :: fk in fks && fk.parent == steps[n] && !fk.action.SetNull? ==> fk.child in Elements(steps[..n])
  {
    forall fk | fk in fks && fk.parent == steps[n] && !fk.action.SetNull? ensures fk.child in Elements(steps[..n]) {
      var i, j :| 0 <= i < j < |steps| && steps[i] == fk.child && steps[j] == steps[n];
      assert j == n && steps[..n][i] == fk.child;
    }
  }

  lemma OneMoreStep(fks: seq<ForeignKey>, db: Db, steps: seq<Table>, n: nat, w: Wiped, d: Deletion)
    requires n < |steps| && WipeSteps(fks, db, steps[..n]) == Some(w) && DeleteMany(fks, w.db, steps[n]) == Some(d)
    ensures WipeSteps(fks, db, steps[..n + 1]) == Some(Wiped(d.db, w.counts + [d.count]))
  {
    assert steps[..n + 1][..n] == steps[..n];
  }

  lemma OneMoreCount(db: Db, steps: seq<Table>, n: nat)
    requires n < |steps|
    ensures Counts(db, steps[..n + 1]) == Counts(db, steps[..n]) + [|RowsOf(db, steps[n])|]
    ensures Elements(steps[..n + 1]) == Elements(steps[..n]) + {steps[n]}
  {
    assert steps[..n + 1][..n] == steps[..n];
  }

  /**
   * Under a child-first order the wipe never meets a foreign-key error, empties exactly the listed
   * tables, reports the initial counts, and leaves every other row, its references into the listed
   * tables set to null.
   */
  lemma {:induction false} ChildFirstWipes(fks: seq<ForeignKey>, db: Db, steps: seq<Table>, n: nat)
    requires ChildFirst(fks, steps) && Unique(db) && n <= |steps|
    ensures WipeSteps(fks, db, steps[..n]) == Some(Wiped(Survivors(fks, db, Elements(steps[..n])), Counts(db, steps[..n])))
  {
    if n == 0 {
      NothingGone(fks, db);
      assert Elements(steps[..0]) == {};
    } else {
      var done, t := Elements(steps[..n - 1]), steps[n - 1];
      ChildFirstWipes(fks, db, steps, n - 1);
      ChildrenDone(fks, steps, n - 1);
      DeleteNext(fks, db, done, t);
      OneMoreCount(db, steps, n - 1);
      OneMoreStep(fks, db, steps, n - 1, Wiped(Survivors(fks, db, done), Counts(db, steps[..n - 1])),
                  Deletion(Survivors(fks, db, done + {t}), |RowsOf(db, t)|));
    }
  }

  // ---- What is left ----

  /** Every reference points at a row that is there. */
  predicate Integrity(fks: seq<ForeignKey>, db: Db) {
    forall r, fk :: r in db && fk in fks && fk.child == r.table && fk.column in r.refs ==>
      (fk.parent, r.refs[fk.column]) in Keys(db)
  }

  /** One foreign key per column, as in any schema. */
  predicate OneKeyPerColumn(fks: seq<ForeignKey>) {
    forall a, b :: a in fks && b in fks && (a.child, a.column) == (b.child, b.column) ==> a == b
  }

  /** The wipe leaves no dangling reference. */
  lemma NoOrphans(fks: seq<ForeignKey>, db: Db, steps: seq<Table>)
    requires ChildFirst(fks, steps) && Integrity(fks, db) && OneKeyPerColumn(fks)
    ensures Integrity(fks, Survivors(fks, db, Elements(steps)))
  {
    var tables := Elements(steps);
    var gone := Keys(Listed(db, tables));
    var after := Survivors(fks, db, tables);
    forall x, fk | x in after && fk in fks && fk.child == x.table && fk.column in x.refs
      ensures (fk.parent, x.refs[fk.column]) in Keys(after)
    {
      var r :| r in db && r.table !in tables && x == Cleared(fks, r, gone);
      assert !Nulled(fks, r, fk.column, gone);
      var p :| p in db && (p.table, p.id) == (fk.parent, r.refs[fk.column]);
      assert p.table !in tables;
      assert Cleared(fks, p, gone) in after;
    }
  }

  /** Some kept row points at a wiped one through a SET NULL column. */
  predicate Attached(fks: seq<ForeignKey>, db: Db, tables: set<Table>) {
    exists r, c :: r in db && r.table !in tables && c in r.refs && Nulled(fks, r, c, Keys(Listed(db, tables)))
  }

  /** The other tables are left as they were exactly when no row of theirs is attached to a wiped one. */
  lemma UntouchedExactly(fks: seq<ForeignKey>, db: Db, tables: set<Table>)
    requires Unique(db)
    ensures Survivors(fks, db, tables) == (set r | r in db && r.table !in tables) <==> !Attached(fks, db, tables)
  {
    var gone := Keys(Listed(db, tables));
    var kept := set r | r in db && r.table !in tables;
    if Attached(fks, db, tables) {
      var r, c :| r in db && r.table !in tables && c in r.refs && Nulled(fks, r, c, gone);
      var x := Cleared(fks, r, gone);
      assert c !in x.refs && x in Survivors(fks, db, tables);
      assert x in db ==> x == r;
    } else {
      forall r | r in kept ensures Cleared(fks, r, gone) == r {
        assert Cleared(fks, r, gone).refs == r.refs;
      }
    }
  }

  // ---- This schema ----

  /** A table's place in `STEPS`. */
  function Place(t: Table): nat {
    match t
    case TicketStatusHistory => 0 case Assignment => 1 case TicketDocument => 2 case TicketClerkReport => 3
    case PromoRedemption => 4 case InvoiceItem => 5 case Invoice => 6 case Payment => 7 case WalletTransaction => 8
    case CaseDocument => 9 case CaseEvent => 10 case TicketIntakeDraft => 11 case Notification => 12
    case Ticket => 13 case Case => 14
    case _ => 15
  }

  lemma PlacesAreRight()
    ensures forall t :: t in STEPS ==> Place(t) < |STEPS| && STEPS[Place(t)] == t
    ensures forall t :: Place(t) < |STEPS| ==> t in STEPS
    ensures Distinct(STEPS)
  {
    assert forall i :: 0 <= i < |STEPS| ==> Place(STEPS[i]) == i;
    forall t | Place(t) < |STEPS| ensures t in STEPS { assert STEPS[Place(t)] == t; }
  }

  /** The child's place is before the parent's, where that matters. */
  predicate InOrder(fk: ForeignKey) {
    fk.action.SetNull? || Place(fk.parent) >= |STEPS| || Place(fk.child) < Place(fk.parent)
  }

  lemma InOrderIsChildFirst(fks: seq<ForeignKey>)
    requires forall fk :: fk in fks ==> InOrder(fk)
    ensures ChildFirst(fks, STEPS)
  {
    PlacesAreRight();
    forall fk | fk in fks && fk.parent in STEPS && !fk.action.SetNull? ensures Before(STEPS, fk.child, fk.parent) {
      assert STEPS[Place(fk.child)] == fk.child && STEPS[Place(fk.parent)] == fk.parent;
    }
  }

  lemma SchemaParts()
    ensures forall fk :: fk in SCHEMA <==> fk in TICKET_KEYS || fk in MONEY_KEYS || fk in CASE_KEYS || fk in PLAIN_KEYS
  {
  }

  lemma TicketKeys()
    ensures forall fk :: fk in TICKET_KEYS ==> InOrder(fk) && (fk.action.Cascade? ==> Dragged(fk.child))
    ensures ForeignKey(TicketStatusHistory, TicketId, Ticket, Restrict) in TICKET_KEYS
  {
    assert TICKET_KEYS[0] == ForeignKey(TicketStatusHistory, TicketId, Ticket, Restrict);
  }

  lemma MoneyKeys()
    ensures forall fk :: fk in MONEY_KEYS ==> InOrder(fk) && (fk.action.Cascade? ==> Dragged(fk.child))
  {
  }

  lemma PlainKeys()
    ensures forall fk :: fk in PLAIN_KEYS ==> InOrder(fk) && !fk.action.Cascade?
  {
  }

  lemma CaseKeys()
    ensures forall fk :: fk in CASE_KEYS ==> InOrder(fk) && (fk.action.Cascade? ==> Dragged(fk.child))
    ensures ForeignKey(PersonalFile, AttachedTicketId, Ticket, SetNull) in CASE_KEYS
  {
    assert CASE_KEYS[0] == ForeignKey(PersonalFile, AttachedTicketId, Ticket, SetNull);
  }

  /** The tables a cascade can drag along. */
  predicate Dragged(t: Table) {
    t.TicketClerkReport? || t.InvoiceItem? || t.CaseEvent? || t.CaseDocument?
  }

  lemma SchemaFacts()
    ensures forall fk :: fk in SCHEMA ==> InOrder(fk) && (fk.action.Cascade? ==> Dragged(fk.child))
    ensures ForeignKey(TicketStatusHistory, TicketId, Ticket, Restrict) in SCHEMA
    ensures ForeignKey(PersonalFile, AttachedTicketId, Ticket, SetNull) in SCHEMA
  {
    SchemaParts();
    TicketKeys();
    MoneyKeys();
    CaseKeys();
    PlainKeys();
  }

  /** The script's order is child-first for the real schema. */
  lemma RealSchemaIsChildFirst()
    ensures ChildFirst(SCHEMA, STEPS)
  {
    SchemaFacts();
    InOrderIsChildFirst(SCHEMA);
  }

  /** So `--apply` fails only on a fault, and otherwise leaves exactly the survivors and reports the plan's counts. */
  lemma RealWipe(db: Db)
    requires Unique(db)
    ensures WipeSteps(SCHEMA, db, STEPS) == Some(Wiped(Survivors(SCHEMA, db, Elements(STEPS)), Counts(db, STEPS)))
  {
    RealSchemaIsChildFirst();
    ChildFirstWipes(SCHEMA, db, STEPS, |STEPS|);
    assert STEPS[..|STEPS|] == STEPS;
  }

  predicate NeverDragged(fks: seq<ForeignKey>, t: Table) {
    forall fk :: fk in fks && fk.child == t ==> !fk.action.Cascade?
  }

  /** Rows are dragged along only by a cascading column of their own table. */
  lemma {:induction false} DraggedCascades(fks: seq<ForeignKey>, db: Db, gone: Db, r: Record)
    requires gone <= db && r !in gone && NeverDragged(fks, r.table)
    ensures r !in Doomed(fks, db, gone)
    decreases |db - gone|
  {
    var more := set x | x in db && x !in gone && LinksInto(fks, Cascade, x, gone);
    if more != {} {
      var x :| x in more;
      assert x in db - gone && x !in db - (gone + more);
      Shrinks(db - (gone + more), db - gone);
      DraggedCascades(fks, db, gone + more, r);
    }
  }

  /** A parent table is not deleted on its own while a restricting child row points into it. */
  lemma RestrictBlocks(fks: seq<ForeignKey>, db: Db, fk: ForeignKey, child: Record, parent: Record)
    requires fk in fks && fk.action.Restrict? && child in db && parent in db && Links(fk, child, parent)
    requires child.table != parent.table && NeverDragged(fks, child.table)
    ensures DeleteMany(fks, db, parent.table).None?
  {
    DraggedCascades(fks, db, RowsOf(db, parent.table), child);
    assert parent in RowsOf(db, parent.table);
  }

  lemma HistoryIsNeverDragged()
    ensures NeverDragged(SCHEMA, TicketStatusHistory)
  {
    SchemaFacts();
  }

  /** Deleting tickets on their own fails in every database where one has status history. */
  lemma TicketsAloneAreBlocked(db: Db, ticket: Record, history: Record)
    requires ticket in db && history in db && ticket.table.Ticket? && history.table.TicketStatusHistory?
    requires TicketId in history.refs && history.refs[TicketId] == ticket.id
    ensures DeleteMany(SCHEMA, db, Ticket).None?
  {
    HistoryIsNeverDragged();
    SchemaFacts();
    RestrictBlocks(SCHEMA, db, ForeignKey(TicketStatusHistory, TicketId, Ticket, Restrict), history, ticket);
  }

  lemma AttachedIsChanged(fks: seq<ForeignKey>, db: Db, tables: set<Table>, fk: ForeignKey, row: Record, target: Record)
    requires Unique(db) && row in db && target in db && row.table !in tables && target.table in tables
    requires fk in fks && fk.action.SetNull? && Links(fk, row, target)
    ensures Survivors(fks, db, tables) != set r | r in db && r.table !in tables
  {
    assert target in Listed(db, tables);
    assert (target.table, target.id) in Keys(Listed(db, tables));
    assert Nulled(fks, row, fk.column, Keys(Listed(db, tables)));
    UntouchedExactly(fks, db, tables);
  }

  lemma TicketsAreListed()
    ensures Ticket in Elements(STEPS) && PersonalFile !in Elements(STEPS)
  {
    PlacesAreRight();
    assert Place(Ticket) < |STEPS| && !(Place(PersonalFile) < |STEPS|);
  }

  /** A personal file attached to a wiped ticket is kept, but the kept rows are then not untouched. */
  lemma AttachedFileIsChanged(db: Db, file: Record, ticket: Record)
    requires Unique(db) && file in db && ticket in db && file.table.PersonalFile? && ticket.table.Ticket?
    requires AttachedTicketId in file.refs && file.refs[AttachedTicketId] == ticket.id
    ensures Survivors(SCHEMA, db, Elements(STEPS)) != set r | r in db && r.table !in Elements(STEPS)
  {
    SchemaFacts();
    TicketsAreListed();
    AttachedIsChanged(SCHEMA, db, Elements(STEPS), ForeignKey(PersonalFile, AttachedTicketId, Ticket, SetNull), file, ticket);
  }
}
