/**
 * The append-only table of corporate-action revisions and the approvals that write to it
 * (backend/app/repositories/corporate_action.py and corporate_action_approval.py).
 */
module RevisionStore {
  import opened Core
  import opened OrderedDicts
  import opened CorporateActions

  datatype Error =
    | PrecisionExceeded
    | BadClassification
    | BadRevisionOrFactors
    | BatchConflict
    | RevisionConflict
    | KnownAtMismatch
    | ReviewerMissing
    | UnknownStock

  /** The unique constraint of the table. */
  datatype RowKey = RowKey(source: string, symbol: string, eventId: string, revision: int)

  function RowKeyOf(a: Action): RowKey {
    RowKey(a.source, a.symbol, a.eventId, a.revision)
  }

  // ----- canonical form and validation -----

  const PLACES := 1000000000000.0
  const MAX_COEFFICIENT := 10000000000000000000000000000

  /** quantize to 12 places; more than 28 digits raise. */
  function Quantized(x: real): Result<real, Error> {
    var coefficient := HalfEven(x * PLACES);
    if -MAX_COEFFICIENT < coefficient < MAX_COEFFICIENT then Ok(coefficient as real / PLACES)
      else Err(PrecisionExceeded)
  }

  function Canonical(a: Action): Result<Action, Error> {
    var price :- Quantized(a.priceFactor);
    var volume :- Quantized(a.volumeFactor);
    Ok(a.(priceFactor := price, volumeFactor := volume))
  }

  lemma HalfEvenOfInteger(n: int, x: real)
    requires x == n as real
    ensures HalfEven(x) == n
  {
  }

  /** Quantizing again changes nothing. */
  lemma QuantizedTwice(x: real)
    requires Quantized(x).Ok?
    ensures Quantized(Quantized(x).value) == Quantized(x)
  {
    var coefficient := HalfEven(x * PLACES);
    assert (coefficient as real / PLACES) * PLACES == coefficient as real;
    HalfEvenOfInteger(coefficient, (coefficient as real / PLACES) * PLACES);
  }

  lemma CanonicalTwice(a: Action)
    requires Canonical(a).Ok?
    ensures Canonical(Canonical(a).value) == Canonical(a)
  {
    hide Quantized;
    QuantizedTwice(a.priceFactor);
    QuantizedTwice(a.volumeFactor);
  }

  // ----- what is stored of an action, said without the store -----

  /** Within half of the twelfth decimal place. */
  ghost predicate NearTwelfth(x: real, y: real) {
    -0.5 <= (x - y) * 1000000000000.0 <= 0.5
  }

  /** The row has the action's own factors to twelve places and is equal to it in every other field. */
  ghost predicate KeptAs(a: Action, row: Action) {
    && NearTwelfth(a.priceFactor, row.priceFactor) && NearTwelfth(a.volumeFactor, row.volumeFactor)
    && row == a.(priceFactor := row.priceFactor, volumeFactor := row.volumeFactor)
  }

  lemma QuantizedNear(x: real)
    requires Quantized(x).Ok?
    ensures NearTwelfth(x, Quantized(x).value)
  {
    var scaled := x * PLACES;
    var coefficient := HalfEven(scaled) as real;
    assert (coefficient / PLACES) * PLACES == coefficient;
  }

  /** A factor is refused exactly when it rounds to a coefficient of more than 28 digits. */
  lemma QuantizedExactly(x: real)
    ensures Quantized(x).Ok? <==>
            -9999999999999999999999999999.5 < x * 1000000000000.0 < 9999999999999999999999999999.5
  {
    var scaled := x * PLACES;
    var coefficient := HalfEven(scaled);
    assert -0.5 <= scaled - coefficient as real <= 0.5;
  }

  lemma CanonicalKeeps(a: Action)
    requires Canonical(a).Ok?
    ensures KeptAs(a, Canonical(a).value)
  {
    hide Quantized, NearTwelfth;
    QuantizedNear(a.priceFactor);
    QuantizedNear(a.volumeFactor);
  }

  function CanonicalAll(actions: seq<Action>): (r: Result<seq<Action>, Error>)
    ensures r.Ok? ==> |r.value| == |actions|
  {
    if actions == [] then Ok([])
    else
      var before :- CanonicalAll(actions[..|actions| - 1]);
      var a :- Canonical(actions[|actions| - 1]);
      Ok(before + [a])
  }

  lemma {:induction false} CanonicalAllKeeps(actions: seq<Action>, i: nat)
    requires CanonicalAll(actions).Ok? && i < |actions|
    ensures KeptAs(actions[i], CanonicalAll(actions).value[i])
  {
    hide KeptAs, Canonical;
    if i < |actions| - 1 {
      CanonicalAllKeeps(actions[..|actions| - 1], i);
    } else {
      CanonicalKeeps(actions[i]);
    }
  }

  function Defect(a: Action): Option<Error> {
    if a.actionType !in ACTION_TYPES || a.status !in ACTION_STATUSES then Some(BadClassification)
    else if a.revision < 1 || a.priceFactor <= 0.0 || a.volumeFactor <= 0.0 then Some(BadRevisionOrFactors)
    else None
  }

  function FirstDefect(actions: seq<Action>): Option<Error> {
    if actions == [] then None
    else if FirstDefect(actions[..|actions| - 1]).Some? then FirstDefect(actions[..|actions| - 1])
    else Defect(actions[|actions| - 1])
  }

  /** Nothing stands in the way of a batch exactly when each item is classified, numbered from 1 and positive. */
  lemma {:induction false} FirstDefectExactly(batch: seq<Action>)
    ensures FirstDefect(batch).None? <==>
            forall a :: a in batch ==>
              && a.actionType in ACTION_TYPES && a.status in ACTION_STATUSES
              && a.revision >= 1 && a.priceFactor > 0.0 && a.volumeFactor > 0.0
  {
    if batch != [] {
      FirstDefectExactly(batch[..|batch| - 1]);
      assert batch == batch[..|batch| - 1] + [batch[|batch| - 1]];
    }
  }

  // ----- the table -----

  type Rows = seq<Action>

  predicate HasRow(rows: Rows, key: RowKey) {
    exists i :: 0 <= i < |rows| && RowKeyOf(rows[i]) == key
  }

  function FindRow(rows: Rows, key: RowKey): (r: Option<Action>)
    ensures r.Some? <==> HasRow(rows, key)
    ensures r.Some? ==> r.value in rows && RowKeyOf(r.value) == key
  {
    if rows == [] then None
    else if RowKeyOf(rows[|rows| - 1]) == key then Some(rows[|rows| - 1])
    else
      assert forall i :: 0 <= i < |rows| - 1 ==> rows[..|rows| - 1][i] == rows[i];
      FindRow(rows[..|rows| - 1], key)
  }

  ghost predicate UniqueRows(rows: Rows) {
    forall i, j :: 0 <= i < j < |rows| ==> RowKeyOf(rows[i]) != RowKeyOf(rows[j])
  }

  /** The table after inserting, in order, each item whose key is not there yet. */
  function Stored(rows: Rows, batch: seq<Action>): Rows {
    if batch == [] then rows
    else
      var before := Stored(rows, batch[..|batch| - 1]);
      var a := batch[|batch| - 1];
      if HasRow(before, RowKeyOf(a)) then before else before + [a]
  }

  /** Equal keys carry equal values within the batch. */
  ghost predicate Agreeing(batch: seq<Action>) {
    forall i, j :: 0 <= i < j < |batch| && RowKeyOf(batch[i]) == RowKeyOf(batch[j]) ==> batch[i] == batch[j]
  }

  /** An item whose key is stored equals the stored row. */
  ghost predicate AgreesWith(rows: Rows, batch: seq<Action>) {
    forall i :: 0 <= i < |batch| && HasRow(rows, RowKeyOf(batch[i])) ==>
      FindRow(rows, RowKeyOf(batch[i])) == Some(batch[i])
  }

  ghost predicate Consistent(rows: Rows, batch: seq<Action>) {
    Agreeing(batch) && AgreesWith(rows, batch)
  }

  lemma FindAppended(rows: Rows, a: Action, key: RowKey)
    ensures FindRow(rows + [a], key) == if RowKeyOf(a) == key then Some(a) else FindRow(rows, key)
    ensures HasRow(rows + [a], key) <==> RowKeyOf(a) == key || HasRow(rows, key)
  {
    assert (rows + [a])[..|rows|] == rows;
    var x := FindRow(rows + [a], key);
    var y := FindRow(rows, key);
  }

  /** Inserting only appends, keeps keys unique, and leaves every item findable. */
  lemma {:induction false} StoredAppends(rows: Rows, batch: seq<Action>)
    ensures rows <= Stored(rows, batch)
    ensures UniqueRows(rows) ==> UniqueRows(Stored(rows, batch))
    ensures forall key :: HasRow(Stored(rows, batch), key) <==> HasRow(rows, key) || HasRow(batch, key)
    ensures forall a :: a in Stored(rows, batch) ==> a in rows || a in batch
  {
    if batch != [] {
      var init, a := batch[..|batch| - 1], batch[|batch| - 1];
      StoredAppends(rows, init);
      var before := Stored(rows, init);
      assert batch == init + [a];
      forall key
        ensures HasRow(Stored(rows, batch), key) <==> HasRow(rows, key) || HasRow(batch, key)
      {
        FindAppended(init, a, key);
        FindAppended(before, a, key);
      }
      if !HasRow(before, RowKeyOf(a)) && UniqueRows(rows) {
        assert forall i :: 0 <= i < |before| ==> RowKeyOf(before[i]) != RowKeyOf(a);
      }
    }
  }

  lemma {:induction false} StoredKeepsFound(rows: Rows, batch: seq<Action>, key: RowKey)
    requires HasRow(rows, key)
    ensures FindRow(Stored(rows, batch), key) == FindRow(rows, key)
  {
    if batch != [] {
      var init, a := batch[..|batch| - 1], batch[|batch| - 1];
      StoredKeepsFound(rows, init, key);
      FindAppended(Stored(rows, init), a, key);
    }
  }

  /** After inserting a consistent batch, each of its items is what its key finds. */
  lemma {:induction false} StoredFinds(rows: Rows, batch: seq<Action>, i: nat)
    requires Consistent(rows, batch) && i < |batch|
    ensures FindRow(Stored(rows, batch), RowKeyOf(batch[i])) == Some(batch[i])
  {
    hide FindRow;
    var init, a := batch[..|batch| - 1], batch[|batch| - 1];
    assert forall k :: 0 <= k < |init| ==> init[k] == batch[k];
    assert Consistent(rows, init);
    var before := Stored(rows, init);
    FindAppended(before, a, RowKeyOf(batch[i]));
    if i < |init| {
      StoredFinds(rows, init, i);
    } else if HasRow(rows, RowKeyOf(a)) {
      StoredKeepsFound(rows, init, RowKeyOf(a));
    } else {
      StoredAppends(rows, init);
      if HasRow(before, RowKeyOf(a)) {
        var k :| 0 <= k < |init| && RowKeyOf(init[k]) == RowKeyOf(a);
        StoredFinds(rows, init, k);
      }
    }
  }

  lemma {:induction false} AllThere(rows: Rows, batch: seq<Action>)
    requires forall i :: 0 <= i < |batch| ==> HasRow(rows, RowKeyOf(batch[i]))
    ensures Stored(rows, batch) == rows
  {
    if batch != [] {
      AllThere(rows, batch[..|batch| - 1]);
    }
  }

  /** Saving the same batch again finds everything there: nothing is inserted. */
  lemma RepeatInsertsNothing(rows: Rows, batch: seq<Action>)
    requires Consistent(rows, batch)
    ensures Consistent(Stored(rows, batch), batch)
    ensures Stored(Stored(rows, batch), batch) == Stored(rows, batch)
  {
    hide Stored, FindRow;
    forall i | 0 <= i < |batch|
      ensures FindRow(Stored(rows, batch), RowKeyOf(batch[i])) == Some(batch[i])
    {
      StoredFinds(rows, batch, i);
    }
    AllThere(Stored(rows, batch), batch);
  }

  // ----- save_batch: the batch is first reduced to one item per key -----

  function UniqueOf(batch: seq<Action>): (r: Dict<RowKey, Action>)
    ensures r.Valid()
  {
    if batch == [] then Empty()
    else
      var before := UniqueOf(batch[..|batch| - 1]);
      var a := batch[|batch| - 1];
      if RowKeyOf(a) in before.items then before else before.Set(RowKeyOf(a), a)
  }

  lemma {:induction false} UniqueKeys(batch: seq<Action>)
    ensures forall key :: key in UniqueOf(batch).items <==> HasRow(batch, key)
    ensures forall key :: key in UniqueOf(batch).items ==> RowKeyOf(UniqueOf(batch).items[key]) == key
    ensures forall key :: key in UniqueOf(batch).items ==> UniqueOf(batch).items[key] in batch
    ensures |UniqueOf(batch).keys| <= |batch|
  {
    if batch != [] {
      var init, a := batch[..|batch| - 1], batch[|batch| - 1];
      UniqueKeys(init);
      assert batch == init + [a];
      forall key { FindAppended(init, a, key); }
    }
  }

  lemma {:induction false} UniqueSuffices(rows: Rows, batch: seq<Action>)
    ensures Stored(rows, UniqueOf(batch).Values()) == Stored(rows, batch)
  {
    if batch != [] {
      var init, a := batch[..|batch| - 1], batch[|batch| - 1];
      UniqueSuffices(rows, init);
      UniqueKeys(init);
      StoredAppends(rows, init);
      var before := UniqueOf(init);
      if RowKeyOf(a) !in before.items {
        var values := UniqueOf(batch).Values();
        assert values == before.Values() + [a];
        assert values[..|values| - 1] == before.Values();
      }
    }
  }

  // ----- approvals -----

  datatype Evidence = Evidence(groupHint: string, receiptNo: string, filingUrl: string, exchangeUrl: string,
                               reviewedBy: string, reviewedAt: int)

  /** What the evidence hash is taken of; the hash is one-to-one on it. */
  datatype Payload = Payload(source: string, symbol: string, eventId: string, actionType: string, effectiveAt: int,
                             announcedAt: Option<int>, priceFactor: real, volumeFactor: real, ruleVersion: string,
                             groupHint: string, receiptNo: string, filingUrl: string, exchangeUrl: string,
                             reviewedBy: string)

  function PayloadOf(a: Action, e: Evidence): Payload {
    Payload(a.source, a.symbol, a.eventId, a.actionType, a.effectiveAt, a.announcedAt, a.priceFactor, a.volumeFactor,
            a.ruleVersion, e.groupHint, e.receiptNo, e.filingUrl, e.exchangeUrl, e.reviewedBy)
  }

  /** An approval names its row by position, the row's id. */
  datatype Approval = Approval(payload: Payload, rowId: nat)

  predicate Blank(s: string) {
    forall i :: 0 <= i < |s| ==> s[i] in {' ', '\t', '\n', '\r'}
  }

  function ApprovalDefect(a: Action, e: Evidence): Option<Error> {
    if a.actionType !in ACTION_TYPES then Some(BadClassification)
    else if a.priceFactor <= 0.0 || a.volumeFactor <= 0.0 then Some(BadRevisionOrFactors)
    else if a.knownAt != e.reviewedAt then Some(KnownAtMismatch)
    else if Blank(e.reviewedBy) then Some(ReviewerMissing)
    else None
  }

  predicate SameEvent(a: Action, b: Action) {
    a.source == b.source && a.symbol == b.symbol && a.eventId == b.eventId
  }

  /** select max(revision) for the event, or 0. */
  function LatestRevision(rows: Rows, a: Action): (r: int)
    ensures r >= 0
    ensures forall i :: 0 <= i < |rows| && SameEvent(rows[i], a) ==> rows[i].revision <= r
    ensures r > 0 ==> exists i :: 0 <= i < |rows| && SameEvent(rows[i], a) && rows[i].revision == r
  {
    if rows == [] then 0
    else
      var rest := LatestRevision(rows[..|rows| - 1], a);
      var last := rows[|rows| - 1];
      assert forall i :: 0 <= i < |rows| - 1 ==> rows[..|rows| - 1][i] == rows[i];
      if SameEvent(last, a) then Max(rest, last.revision) else rest
  }

  datatype Db = Db(rows: Rows, approvals: seq<Approval>, stocks: set<string>)

  predicate HasApproval(approvals: seq<Approval>, payload: Payload) {
    exists i :: 0 <= i < |approvals| && approvals[i].payload == payload
  }

  function FindApproval(approvals: seq<Approval>, payload: Payload): (r: Approval)
    requires HasApproval(approvals, payload)
    ensures r in approvals && r.payload == payload
  {
    if approvals[|approvals| - 1].payload == payload then approvals[|approvals| - 1]
    else
      assert HasApproval(approvals[..|approvals| - 1], payload) by {
        var i :| 0 <= i < |approvals| && approvals[i].payload == payload;
        assert approvals[..|approvals| - 1][i].payload == payload;
      }
      FindApproval(approvals[..|approvals| - 1], payload)
  }

  /** Every approval points at a row; no payload is approved twice; no key is stored twice. */
  ghost predicate Sound(db: Db) {
    && UniqueRows(db.rows)
    && (forall i :: 0 <= i < |db.approvals| ==> db.approvals[i].rowId < |db.rows|)
    && (forall i, j :: 0 <= i < j < |db.approvals| ==> db.approvals[i].payload != db.approvals[j].payload)
  }

  datatype Approved = Approved(action: Action, created: bool)

  function ApprovedRow(rows: Rows, a: Action, e: Evidence): Action {
    a.(revision := LatestRevision(rows, a) + 1, knownAt := e.reviewedAt, status := "confirmed")
  }

  /** approve as a whole; a rejected request changes nothing. */
  ghost function Approve(db: Db, action: Action, e: Evidence): (Db, Result<Approved, Error>)
    requires Sound(db)
  {
    var canonical := Canonical(action);
    if canonical.Err? then (db, Err(canonical.error))
    else
      var a := canonical.value;
      var payload := PayloadOf(a, e);
      if ApprovalDefect(a, e).Some? then (db, Err(ApprovalDefect(a, e).value))
      else if a.symbol !in db.stocks then (db, Err(UnknownStock))
      else if HasApproval(db.approvals, payload) then
        (db, Ok(Approved(db.rows[FindApproval(db.approvals, payload).rowId], false)))
      else
        var row := ApprovedRow(db.rows, a, e);
        (Db(db.rows + [row], db.approvals + [Approval(payload, |db.rows|)], db.stocks), Ok(Approved(row, true)))
  }

  /** save_batch as a whole: all or nothing. */
  ghost function Save(db: Db, actions: seq<Action>): Db {
    var canonical := CanonicalAll(actions);
    if canonical.Ok? && FirstDefect(canonical.value).None? && Consistent(db.rows, canonical.value)
    then db.(rows := Stored(db.rows, canonical.value))
    else db
  }

  datatype Request = SaveRequest(actions: seq<Action>) | ApproveRequest(action: Action, evidence: Evidence)

  ghost function Serve(db: Db, request: Request): Db
    requires Sound(db)
  {
    match request
    case SaveRequest(actions) => Save(db, actions)
    case ApproveRequest(action, evidence) => Approve(db, action, evidence).0
  }

  /** Nothing stored or approved is ever changed or removed. */
  ghost predicate Extends(before: Db, after: Db) {
    before.rows <= after.rows && before.approvals <= after.approvals && before.stocks == after.stocks
  }

  lemma ServeKeeps(db: Db, request: Request)
    requires Sound(db)
    ensures Sound(Serve(db, request)) && Extends(db, Serve(db, request))
  {
    hide Canonical, CanonicalAll, FindApproval;
    match request
    case SaveRequest(actions) =>
      if Save(db, actions) != db {
        StoredAppends(db.rows, CanonicalAll(actions).value);
      }
    case ApproveRequest(action, evidence) =>
      var after := Approve(db, action, evidence).0;
      if after != db {
        var a := Canonical(action).value;
        assert forall i :: 0 <= i < |db.rows| && RowKeyOf(db.rows[i]) == RowKeyOf(after.rows[|db.rows|]) ==>
               SameEvent(db.rows[i], a);
      }
  }

  ghost function ServeAll(db: Db, requests: seq<Request>): (r: Db)
    requires Sound(db)
    ensures Sound(r) && Extends(db, r)
  {
    if requests == [] then db
    else
      var before := ServeAll(db, requests[..|requests| - 1]);
      ServeKeeps(before, requests[|requests| - 1]);
      Serve(before, requests[|requests| - 1])
  }

  /** A new approval's revision is the one after the highest stored revision of its event, or the first. */
  lemma ApprovedRevisionsIncrease(db: Db, action: Action, e: Evidence)
    requires Sound(db) && Approve(db, action, e).1.Ok? && Approve(db, action, e).1.value.created
    ensures var row := Approve(db, action, e).1.value.action;
            && Approve(db, action, e).0.rows == db.rows + [row]
            && row.revision >= 1 && row.status == "confirmed" && row.knownAt == e.reviewedAt
            && (forall i :: 0 <= i < |db.rows| && SameEvent(db.rows[i], row) ==> db.rows[i].revision < row.revision)
            && (row.revision == 1 || exists i :: 0 <= i < |db.rows| && SameEvent(db.rows[i], row)
                                                && db.rows[i].revision == row.revision - 1)
  {
    hide Canonical;
    var a := Canonical(action).value;
    var row := Approve(db, action, e).1.value.action;
    assert forall i :: 0 <= i < |db.rows| && SameEvent(db.rows[i], row) ==> SameEvent(db.rows[i], a);
  }

  lemma {:induction false} FindApprovalAt(approvals: seq<Approval>, i: nat)
    requires i < |approvals|
    requires forall a, b :: 0 <= a < b < |approvals| ==> approvals[a].payload != approvals[b].payload
    ensures HasApproval(approvals, approvals[i].payload)
            && FindApproval(approvals, approvals[i].payload) == approvals[i]
  {
    if i < |approvals| - 1 {
      assert approvals[..|approvals| - 1][i] == approvals[i];
      FindApprovalAt(approvals[..|approvals| - 1], i);
    }
  }

  /** Whatever happens in between, the same evidence gets the same record back and creates none. */
  lemma SameEvidenceSameRecord(db: Db, action: Action, e: Evidence, requests: seq<Request>)
    requires Sound(db) && Approve(db, action, e).1.Ok?
    ensures Sound(Approve(db, action, e).0)
    ensures var later := ServeAll(Approve(db, action, e).0, requests);
            Approve(later, action, e) == (later, Ok(Approved(Approve(db, action, e).1.value.action, false)))
  {
    hide Canonical, ApprovedRow, FindApproval;
    ServeKeeps(db, ApproveRequest(action, e));
    var first := Approve(db, action, e).0;
    var payload := PayloadOf(Canonical(action).value, e);
    var i :| 0 <= i < |first.approvals| && first.approvals[i].payload == payload;
    var later := ServeAll(first, requests);
    assert later.approvals[i] == first.approvals[i];
    FindApprovalAt(first.approvals, i);
    FindApprovalAt(later.approvals, i);
  }

  /** After a save that is accepted, every item is found under its own key, as it was given. */
  lemma SavedAsGiven(db: Db, actions: seq<Action>, i: nat)
    requires CanonicalAll(actions).Ok? && FirstDefect(CanonicalAll(actions).value).None?
    requires Consistent(db.rows, CanonicalAll(actions).value) && i < |actions|
    ensures var row := FindRow(Save(db, actions).rows, RowKeyOf(actions[i]));
            row.Some? && KeptAs(actions[i], row.value)
  {
    hide CanonicalAll, NearTwelfth, FindRow, Stored, FirstDefect, Consistent;
    CanonicalAllKeeps(actions, i);
    StoredFinds(db.rows, CanonicalAll(actions).value, i);
  }

  /** What an approval comes to, read off the request and the tables. */
  lemma ApprovedAsGiven(db: Db, action: Action, e: Evidence)
    requires Sound(db) && Approve(db, action, e).1.Ok?
    ensures var (after, r) := Approve(db, action, e);
            && action.actionType in ACTION_TYPES && action.knownAt == e.reviewedAt
            && !Blank(e.reviewedBy) && action.symbol in db.stocks
            && if r.value.created then
                 && after.rows == db.rows + [r.value.action]
                 && KeptAs(action.(revision := r.value.action.revision, status := "confirmed"), r.value.action)
               else after == db && r.value.action in db.rows
  {
    hide Quantized, NearTwelfth;
    CanonicalKeeps(action);
  }

  /** Two requests count as the same evidence exactly when all of these fields agree. */
  lemma PayloadsEqualExactly(a: Action, e: Evidence, b: Action, f: Evidence)
    ensures PayloadOf(a, e) == PayloadOf(b, f) <==>
            && a.source == b.source && a.symbol == b.symbol && a.eventId == b.eventId
            && a.actionType == b.actionType && a.effectiveAt == b.effectiveAt && a.announcedAt == b.announcedAt
            && a.priceFactor == b.priceFactor && a.volumeFactor == b.volumeFactor && a.ruleVersion == b.ruleVersion
            && e.groupHint == f.groupHint && e.receiptNo == f.receiptNo && e.filingUrl == f.filingUrl
            && e.exchangeUrl == f.exchangeUrl && e.reviewedBy == f.reviewedBy
  {
  }

  // ----- point-in-time reads -----

  /** list_known's where clause. */
  function Known(rows: Rows, symbol: string, asOf: int): seq<Action> {
    if rows == [] then []
    else
      var rest := Known(rows[..|rows| - 1], symbol, asOf);
      var last := rows[|rows| - 1];
      if last.symbol == symbol && last.knownAt <= asOf then rest + [last] else rest
  }

  /** Appended rows that an earlier time's listing would show: known by then, whenever they were written. */
  predicate Backdates(row: Action, symbol: string, asOf: int) {
    row.symbol == symbol && row.knownAt <= asOf
  }

  /** Appending leaves what was known at a time as it was exactly when none of the new rows is backdated to it. */
  lemma {:induction false} PastIsFixedExactly(before: Rows, after: Rows, symbol: string, asOf: int)
    requires before <= after
    ensures Known(before, symbol, asOf) <= Known(after, symbol, asOf)
    ensures Known(after, symbol, asOf) == Known(before, symbol, asOf) <==>
            forall i :: |before| <= i < |after| ==> !Backdates(after[i], symbol, asOf)
    decreases |after|
  {
    if before != after {
      var init := after[..|after| - 1];
      PastIsFixedExactly(before, init, symbol, asOf);
      assert forall i :: |before| <= i < |init| ==> init[i] == after[i];
      if Backdates(after[|init|], symbol, asOf) {
        assert |Known(after, symbol, asOf)| > |Known(before, symbol, asOf)|;
      }
    }
  }

  function BackdatedAction(symbol: string, eventId: string, asOf: int): Action {
    Action(symbol, "split", eventId, 1, asOf, None, asOf, 1.0, 1.0, "confirmed", "manual", "1")
  }

  lemma QuantizedOne()
    ensures Quantized(1.0) == Ok(1.0)
  {
    HalfEvenOfInteger(1000000000000, 1.0 * PLACES);
  }

  /** A batch of one valid new item is consistent and appends it. */
  lemma OneStored(rows: Rows, a: Action)
    requires Canonical(a) == Ok(a) && Defect(a).None? && !HasRow(rows, RowKeyOf(a))
    ensures CanonicalAll([a]) == Ok([a]) && FirstDefect([a]).None?
    ensures Consistent(rows, [a]) && Stored(rows, [a]) == rows + [a]
  {
    hide Canonical, Defect, HasRow;
    var one := [a];
    assert one[..|one| - 1] == [] && one[|one| - 1] == a;
    assert CanonicalAll([]) == Ok([]) && FirstDefect([]).None? && Stored(rows, []) == rows;
    assert [] + [a] == one;
  }

  /** The store takes such rows: saving one changes what was known at its time. */
  lemma BackdatedSaveChangesPast(db: Db, symbol: string, eventId: string, asOf: int)
    requires !HasRow(db.rows, RowKeyOf(BackdatedAction(symbol, eventId, asOf)))
    ensures var a := BackdatedAction(symbol, eventId, asOf);
            Known(Save(db, [a]).rows, symbol, asOf) == Known(db.rows, symbol, asOf) + [a]
  {
    hide Quantized;
    var a := BackdatedAction(symbol, eventId, asOf);
    QuantizedOne();
    OneStored(db.rows, a);
    assert (db.rows + [a])[..|db.rows|] == db.rows;
  }

  // ----- what the methods rely on -----

  lemma {:induction false} FindSkips(rows: Rows, batch: seq<Action>, key: RowKey)
    requires forall k :: 0 <= k < |batch| ==> RowKeyOf(batch[k]) != key
    ensures FindRow(Stored(rows, batch), key) == FindRow(rows, key)
  {
    if batch != [] {
      FindSkips(rows, batch[..|batch| - 1], key);
      FindAppended(Stored(rows, batch[..|batch| - 1]), batch[|batch| - 1], key);
    }
  }

  /** The session looks up a key among the old rows only: the earlier items have other keys. */
  lemma {:induction false} SessionFinds(rows: Rows, firsts: Dict<RowKey, Action>, i: nat)
    requires firsts.Valid() && i < |firsts.keys|
    requires forall key :: key in firsts.items ==> RowKeyOf(firsts.items[key]) == key
    ensures FindRow(Stored(rows, firsts.Values()[..i]), firsts.keys[i]) == FindRow(rows, firsts.keys[i])
    ensures RowKeyOf(firsts.Values()[i]) == firsts.keys[i]
  {
    var values := firsts.Values();
    assert firsts.keys[i] in firsts.items;
    FindSkips(rows, values[..i], firsts.keys[i]) by {
      forall k | 0 <= k < i
        ensures RowKeyOf(values[..i][k]) != firsts.keys[i]
      {
        assert firsts.keys[k] in firsts.items;
      }
    }
  }

  lemma UniqueStart(batch: seq<Action>)
    ensures UniqueOf(batch[..0]) == Empty()
  {
  }

  /** One round of the first loop; two values for one key are a disagreement. */
  lemma UniqueNext(batch: seq<Action>, i: nat)
    requires i < |batch|
    ensures var before, key := UniqueOf(batch[..i]), RowKeyOf(batch[i]);
            && UniqueOf(batch[..i + 1]) == (if key in before.items then before else before.Set(key, batch[i]))
            && (key in before.items && before.items[key] != batch[i] ==> !Agreeing(batch))
  {
    assert batch[..i + 1][..i] == batch[..i];
    UniqueKeys(batch[..i]);
    var before, key := UniqueOf(batch[..i]), RowKeyOf(batch[i]);
    if key in before.items && before.items[key] != batch[i] {
      var k :| 0 <= k < i && batch[..i][k] == before.items[key];
      assert batch[k] == before.items[key];
    }
  }

  lemma StoredNothing(rows: Rows, batch: seq<Action>)
    ensures Stored(rows, batch[..0]) == rows
  {
  }

  lemma StoredNext(rows: Rows, batch: seq<Action>, i: nat)
    requires i < |batch|
    ensures var before := Stored(rows, batch[..i]);
            Stored(rows, batch[..i + 1]) == if FindRow(before, RowKeyOf(batch[i])).Some? then before
              else before + [batch[i]]
  {
    assert batch[..i + 1][..i] == batch[..i];
  }

  /** The first items agree with the table exactly when an agreeing batch does. */
  lemma UniqueAgrees(rows: Rows, batch: seq<Action>)
    requires Agreeing(batch)
    ensures AgreesWith(rows, UniqueOf(batch).Values()) <==> AgreesWith(rows, batch)
  {
    hide FindRow, UniqueOf;
    UniqueKeys(batch);
    var firsts := UniqueOf(batch);
    var values := firsts.Values();
    if AgreesWith(rows, values) {
      forall i | 0 <= i < |batch| && HasRow(rows, RowKeyOf(batch[i]))
        ensures FindRow(rows, RowKeyOf(batch[i])) == Some(batch[i])
      {
        var key := RowKeyOf(batch[i]);
        assert HasRow(batch, key);
        var k :| 0 <= k < |firsts.keys| && firsts.keys[k] == key;
        assert values[k] == firsts.items[key] && values[k] in batch;
        var j :| 0 <= j < |batch| && batch[j] == values[k];
        assert batch[j] == batch[i];
      }
    }
    if AgreesWith(rows, batch) {
      forall k | 0 <= k < |values| && HasRow(rows, RowKeyOf(values[k]))
        ensures FindRow(rows, RowKeyOf(values[k])) == Some(values[k])
      {
        assert firsts.keys[k] in firsts.items;
        var j :| 0 <= j < |batch| && batch[j] == values[k];
      }
    }
  }

  // ----- the object -----

  class CorporateActionStore {
    var rows: Rows
    var approvals: seq<Approval>
    var stocks: set<string>

    ghost function Contents(): Db
      reads this
    {
      Db(rows, approvals, stocks)
    }

    ghost predicate Valid()
      reads this
    {
      Sound(Contents())
    }

    constructor (stocks: set<string>)
      ensures Valid() && Contents() == Db([], [], stocks)
    {
      rows, approvals, this.stocks := [], [], stocks;
    }

    method Prepare(actions: seq<Action>) returns (r: Result<seq<Action>, Error>)
      ensures r == match CanonicalAll(actions)
                   case Err(e) => Err(e)
                   case Ok(batch) => if FirstDefect(batch).Some? then Err(FirstDefect(batch).value) else Ok(batch)
    {
      var batch :- CanonicalAll(actions);
      if FirstDefect(batch).Some? {
        return Err(FirstDefect(batch).value);
      }
      r := Ok(batch);
    }

    /** The first loop of save_batch: one item per key, refusing two values for one key. */
    method Reduce(batch: seq<Action>) returns (r: Result<(Dict<RowKey, Action>, nat), Error>)
      ensures r.Ok? <==> Agreeing(batch)
      ensures r.Ok? ==> r.value.0 == UniqueOf(batch) && r.value.1 + |r.value.0.keys| == |batch|
      ensures r.Err? ==> r.error == BatchConflict
    {
      hide UniqueOf, HasRow;
      UniqueStart(batch);
      var firsts: Dict<RowKey, Action> := Empty();
      var repeats := 0;
      var i := 0;
      while i < |batch|
        invariant 0 <= i <= |batch|
        invariant firsts == UniqueOf(batch[..i]) && repeats + |firsts.keys| == i
        invariant forall a :: 0 <= a < i ==>
                  RowKeyOf(batch[a]) in firsts.items && firsts.items[RowKeyOf(batch[a])] == batch[a]
      {
        var key := RowKeyOf(batch[i]);
        UniqueNext(batch, i);
        if key !in firsts.items {
          firsts := firsts.Set(key, batch[i]);
        } else if firsts.items[key] == batch[i] {
          repeats := repeats + 1;
        } else {
          return Err(BatchConflict);
        }
        i := i + 1;
      }
      assert batch[..i] == batch;
      r := Ok((firsts, repeats));
    }

    /** The second loop: each first item is found equal, inserted, or refused. */
    method Insert(firsts: Dict<RowKey, Action>) returns (r: Result<(Rows, nat, nat), Error>)
      requires firsts.Valid() && forall key :: key in firsts.items ==> RowKeyOf(firsts.items[key]) == key
      ensures r.Ok? <==> AgreesWith(rows, firsts.Values())
      ensures r.Ok? ==> r.value.0 == Stored(rows, firsts.Values())
                        && r.value.1 == |r.value.0| - |rows| && r.value.1 + r.value.2 == |firsts.keys|
      ensures r.Err? ==> r.error == RevisionConflict
    {
      hide Stored, FindRow, HasRow;
      var values := firsts.Values();
      StoredNothing(rows, values);
      var session, created, repeats := rows, 0, 0;
      var i := 0;
      while i < |values|
        invariant 0 <= i <= |values|
        invariant session == Stored(rows, values[..i])
        invariant created == |session| - |rows| && created + repeats == i
        invariant forall k :: 0 <= k < i && HasRow(rows, RowKeyOf(values[k])) ==>
                  FindRow(rows, RowKeyOf(values[k])) == Some(values[k])
      {
        SessionFinds(rows, firsts, i);
        StoredNext(rows, values, i);
        var existing := FindRow(session, RowKeyOf(values[i]));
        if existing.Some? {
          if existing.value != values[i] {
            return Err(RevisionConflict);
          }
          repeats := repeats + 1;
        } else {
          session := session + [values[i]];
          created := created + 1;
        }
        i := i + 1;
      }
      assert values[..i] == values;
      r := Ok((session, created, repeats));
    }

    /**
     * save_batch: on success every item is stored, everything earlier is untouched, and the two
     * counts add up to the batch; on failure nothing is stored.
     */
    method SaveBatch(actions: seq<Action>) returns (r: Result<(nat, nat), Error>)
      requires Valid()
      modifies this
      ensures Valid() && Contents() == Save(old(Contents()), actions)
      ensures r.Ok? <==> CanonicalAll(actions).Ok? && FirstDefect(CanonicalAll(actions).value).None?
                         && Consistent(old(rows), CanonicalAll(actions).value)
      ensures r.Ok? ==> r.value.0 + r.value.1 == |actions| && r.value.0 == |rows| - |old(rows)|
      ensures r.Ok? ==> forall i :: 0 <= i < |actions| ==>
                          var row := FindRow(rows, RowKeyOf(actions[i]));
                          row.Some? && KeptAs(actions[i], row.value)
      ensures r.Err? ==> Contents() == old(Contents())
    {
      hide KeptAs, FindRow;
      hide Agreeing, AgreesWith, Stored, UniqueOf, UniqueRows, CanonicalAll, FirstDefect;
      var batch :- Prepare(actions);
      var reduced :- Reduce(batch);
      UniqueKeys(batch);
      UniqueAgrees(rows, batch);
      var inserted :- Insert(reduced.0);
      UniqueSuffices(rows, batch);
      ServeKeeps(Contents(), SaveRequest(actions));
      rows := inserted.0;
      forall i | 0 <= i < |actions|
        ensures var row := FindRow(inserted.0, RowKeyOf(actions[i])); row.Some? && KeptAs(actions[i], row.value)
      {
        SavedAsGiven(old(Contents()), actions, i);
      }
      r := Ok((inserted.1, inserted.2 + reduced.1));
    }

    method ApproveCandidate(action: Action, evidence: Evidence) returns (r: Result<Approved, Error>)
      requires Valid()
      modifies this
      ensures Valid() && (Contents(), r) == Approve(old(Contents()), action, evidence)
      ensures r.Ok? && r.value.created ==>
                && rows == old(rows) + [r.value.action]
                && KeptAs(action.(revision := r.value.action.revision, status := "confirmed"), r.value.action)
      ensures r.Ok? && !r.value.created ==> rows == old(rows) && r.value.action in rows
    {
      hide KeptAs;
      if Approve(Contents(), action, evidence).1.Ok? {
        ApprovedAsGiven(Contents(), action, evidence);
      }
      ServeKeeps(Contents(), ApproveRequest(action, evidence));
      var a :- Canonical(action);
      if ApprovalDefect(a, evidence).Some? {
        return Err(ApprovalDefect(a, evidence).value);
      }
      if a.symbol !in stocks {
        return Err(UnknownStock);
      }
      var payload := PayloadOf(a, evidence);
      if HasApproval(approvals, payload) {
        var existing := FindApproval(approvals, payload);
        return Ok(Approved(rows[existing.rowId], false));
      }
      var row := a.(revision := LatestRevision(rows, a) + 1, knownAt := evidence.reviewedAt, status := "confirmed");
      approvals := approvals + [Approval(payload, |rows|)];
      rows := rows + [row];
      r := Ok(Approved(row, true));
    }
  }
}
