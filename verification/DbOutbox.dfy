/** The table-backed outbox under any number of dispatchers, publish failures,
    failed deletes and crashes. */
module DbOutbox {
  import opened Outbox
  import opened Wrappers

  /** A row's payload, decoded over the row's columns: an event, or a mismatch
      that stops decoding. Either way the id is the payload's if it has one,
      and only otherwise the row's own. */
  datatype Row = Good(event: Event) | Malformed(named: string) {
    /** The id by which a dispatcher will delete. */
    function Names(): string {
      match this
      case Good(e) => e.id
      case Malformed(named) => named
    }
  }

  /** What a dispatcher has in hand between Dequeue and MarkPublished. */
  datatype Phase = Picked(event: Event) | Sent(event: Event)

  datatype DbError = DuplicateKey | Undecodable

  type Rows = map<string, Row>

  /** The table after an insert; `id` is the primary key. */
  function Inserted(rows: Rows, id: string, row: Row): Rows {
    if id in rows then rows else rows[id := row]
  }

  /** The table after the row `id` was selected and decoded: one that does not
      decode is deleted by the id that decoding left behind. */
  function Selected(rows: Rows, id: string): Rows
    requires id in rows
  {
    if rows[id].Malformed? then rows - {rows[id].named} else rows
  }

  function Unlisted(rows: Rows, e: Event): Rows {
    rows - {e.id}
  }

  /** The outbox's three statements, each one transaction on the table. */
  class DBOutbox {
    var rows: Rows

    constructor ()
      ensures rows == map[]
    {
      rows := map[];
    }

    method Enqueue(e: Event, newID: string, now: int) returns (r: Result<Event, DbError>)
      modifies this
      ensures var filled := Filled(e, newID, now);
        rows == Inserted(old(rows), filled.id, Good(filled))
        && rows == (if filled.id in old(rows) then old(rows) else old(rows)[filled.id := Good(filled)])
        && r == if filled.id in old(rows) then Err(DuplicateKey) else Ok(filled)
    {
      var event := Filled(e, newID, now);
      if event.id in rows {
        return Err(DuplicateKey);
      }
      rows := rows[event.id := Good(event)];
      r := Ok(event);
    }

    /** `selected` is the row the query locked, if there was one. */
    method Dequeue(selected: Option<string>) returns (r: Result<Option<Event>, DbError>)
      requires selected.Some? ==> selected.value in rows
      modifies this
      ensures match selected
        case None => r == Ok(None) && rows == old(rows)
        case Some(id) =>
          rows == Selected(old(rows), id)
          && rows == (if old(rows)[id].Malformed? then old(rows) - {old(rows)[id].named} else old(rows))
          && r == match old(rows)[id] { case Good(e) => Ok(Some(e)) case Malformed(_) => Err(Undecodable) }
    {
      if selected.None? {
        return Ok(None);
      }
      match rows[selected.value]
      case Malformed(named) =>
        rows := rows - {named};
        r := Err(Undecodable);
      case Good(e) =>
        r := Ok(Some(e));
    }

    method MarkPublished(e: Event)
      modifies this
      ensures rows == Unlisted(old(rows), e) && e.id !in rows
      ensures forall id :: id in old(rows) && id != e.id ==> id in rows && rows[id] == old(rows)[id]
    {
      rows := rows - {e.id};
    }
  }

  /** `pending` are the events accepted and not published since. */
  datatype Table = Table(rows: Rows, holding: map<nat, Phase>, pending: set<Event>)

  datatype Step =
    | Insert(event: Event)
    | Intrude(id: string, row: Row)
    | Pick(dispatcher: nat, id: string)
    | Publish(dispatcher: nat, ok: bool)
    | Mark(dispatcher: nat, ok: bool)
    | Crash(dispatcher: nat)

  predicate Enabled(s: Table, step: Step) {
    match step
    case Pick(d, id) => d !in s.holding && id in s.rows
    case Publish(d, _) => d in s.holding && s.holding[d].Picked?
    case Mark(d, _) => d in s.holding && s.holding[d].Sent?
    case Crash(d) => d in s.holding
    // Enqueue has filled in the id and the time
    case Insert(e) => e.id != "" && e.occurredAt.Some?
    case Intrude(_, _) => true
  }

  function Next(s: Table, step: Step): Table
    requires Enabled(s, step)
  {
    match step
    case Insert(e) =>
      s.(rows := Inserted(s.rows, e.id, Good(e)), pending := s.pending + (if e.id in s.rows then {} else {e}))
    case Intrude(id, row) =>
      // someone else writes a row
      s.(rows := Inserted(s.rows, id, row))
    case Pick(d, id) =>
      // the row lock is gone once the transaction commits
      var picked := s.(rows := Selected(s.rows, id));
      if s.rows[id].Good? then picked.(holding := s.holding[d := Picked(s.rows[id].event)]) else picked
    case Publish(d, ok) =>
      var e := s.holding[d].event;
      if ok then s.(holding := s.holding[d := Sent(e)], pending := s.pending - {e})
      else s.(holding := s.holding - {d})
    case Mark(d, ok) =>
      var done := s.(holding := s.holding - {d});
      if ok then done.(rows := Unlisted(s.rows, s.holding[d].event)) else done
    case Crash(d) => s.(holding := s.holding - {d})
  }

  ghost predicate Legal(s: Table, run: seq<Step>)
    decreases |run|
  {
    run == [] || (Enabled(s, run[0]) && Legal(Next(s, run[0]), run[1..]))
  }

  ghost function Exec(s: Table, run: seq<Step>): Table
    requires Legal(s, run)
    decreases |run|
  {
    if run == [] then s else Exec(Next(s, run[0]), run[1..])
  }

  const EMPTY := Table(map[], map[], {})

  /** Every event that is still to be published is still a row. */
  ghost predicate Safe(s: Table) {
    forall e :: e in s.pending ==> e.id in s.rows && s.rows[e.id] == Good(e)
  }

  /** An insert of `e` is refused, or whoever holds an event under its id holds
      `e` itself and has yet to publish it. */
  ghost predicate IdIsFree(s: Table, e: Event) {
    e.id in s.rows ||
    forall d :: d in s.holding && s.holding[d].event.id == e.id ==> s.holding[d] == Picked(e)
  }

  /** A row that is about to be written names itself or nothing, or is refused. */
  ghost predicate Harmless(s: Table, id: string, row: Row) {
    id in s.rows || row.Names() == id || row.Names() == ""
  }

  ghost predicate Proper(s: Table, step: Step) {
    match step
    case Insert(e) => IdIsFree(s, e)
    case Intrude(id, row) => Harmless(s, id, row)
    case _ => true
  }

  ghost predicate ProperRun(s: Table, run: seq<Step>)
    requires Legal(s, run)
    decreases |run|
  {
    run == [] || (Proper(s, run[0]) && ProperRun(Next(s, run[0]), run[1..]))
  }

  ghost predicate Inv(s: Table) {
    Safe(s) &&
    (forall d, e :: d in s.holding && e in s.pending && s.holding[d].event.id == e.id ==>
      s.holding[d] == Picked(e)) &&
    (forall e :: e in s.pending ==> e.id != "") &&
    (forall id :: id in s.rows ==> s.rows[id].Names() == id || s.rows[id].Names() == "")
  }

  lemma NextKeepsInv(s: Table, step: Step)
    requires Enabled(s, step) && Inv(s) && Proper(s, step)
    ensures Inv(Next(s, step))
  {}

  lemma {:induction false} ExecKeepsInv(s: Table, run: seq<Step>)
    requires Legal(s, run) && ProperRun(s, run) && Inv(s)
    ensures Inv(Exec(s, run))
    decreases |run|
  {
    if run != [] {
      NextKeepsInv(s, run[0]);
      ExecKeepsInv(Next(s, run[0]), run[1..]);
    }
  }

  /** Step `k` of the run publishes `e`. */
  ghost predicate PublishesAt(s: Table, run: seq<Step>, k: nat, e: Event)
    requires Legal(s, run)
    decreases |run|
  {
    k < |run| &&
    if k == 0 then run[0].Publish? && run[0].ok && s.holding[run[0].dispatcher].event == e
    else PublishesAt(Next(s, run[0]), run[1..], k - 1, e)
  }

  lemma {:induction false} PendingUntilPublished(s: Table, run: seq<Step>, e: Event) returns (k: nat)
    requires Legal(s, run) && e in s.pending
    ensures e in Exec(s, run).pending || PublishesAt(s, run, k, e)
    decreases |run|
  {
    k := 0;
    if run != [] && e in Next(s, run[0]).pending {
      k := PendingUntilPublished(Next(s, run[0]), run[1..], e);
      k := k + 1;
    }
  }

  lemma {:induction false} LegalParts(s: Table, before: seq<Step>, after: seq<Step>)
    requires Legal(s, before + after)
    ensures Legal(s, before) && Legal(Exec(s, before), after)
    ensures Exec(s, before + after) == Exec(Exec(s, before), after)
    decreases |before|
  {
    if before == [] {
      assert before + after == after;
    } else {
      assert (before + after)[1..] == before[1..] + after;
      LegalParts(Next(s, before[0]), before[1..], after);
    }
  }

  /** At least once, for every acceptance: in every proper run, each time an event
      is accepted it is afterwards published or its row is still there. */
  lemma AtLeastOnce(before: seq<Step>, e: Event, after: seq<Step>) returns (k: nat)
    requires var run := before + ([Insert(e)] + after); Legal(EMPTY, run) && ProperRun(EMPTY, run)
    requires Legal(EMPTY, before) && e.id !in Exec(EMPTY, before).rows
    ensures var end := Exec(EMPTY, before + ([Insert(e)] + after));
      Enabled(Exec(EMPTY, before), Insert(e)) &&
      var s := Next(Exec(EMPTY, before), Insert(e));
      Legal(s, after) &&
      ((e.id in end.rows && end.rows[e.id] == Good(e)) || PublishesAt(s, after, k, e))
  {
    var rest := [Insert(e)] + after;
    LegalParts(EMPTY, before, rest);
    assert rest[1..] == after;
    ExecKeepsInv(EMPTY, before + rest);
    k := PendingUntilPublished(Next(Exec(EMPTY, before), Insert(e)), after, e);
  }

  // ----- ids that are never reused -----

  /** The step writes an event that a dispatcher will hold under `id`. */
  predicate Offers(step: Step, id: string) {
    (step.Insert? && step.event.id == id) || (step.Intrude? && step.row.Good? && step.row.event.id == id)
  }

  ghost predicate NeverReused(run: seq<Step>) {
    forall i, j :: 0 <= i < j < |run| && run[j].Insert? ==> !Offers(run[i], run[j].event.id)
  }

  /** Rows written by others name themselves or nothing. */
  ghost predicate SelfNaming(run: seq<Step>) {
    forall i :: 0 <= i < |run| && run[i].Intrude? ==> run[i].row.Names() in {run[i].id, ""}
  }

  ghost predicate HeldWereOffered(s: Table, used: set<string>) {
    (forall d :: d in s.holding ==> s.holding[d].event.id in used) &&
    (forall id :: id in s.rows && s.rows[id].Good? ==> s.rows[id].event.id in used)
  }

  lemma {:induction false} NeverReusedIsProper(s: Table, run: seq<Step>, used: set<string>)
    requires Legal(s, run) && NeverReused(run) && SelfNaming(run) && HeldWereOffered(s, used)
    requires forall i :: 0 <= i < |run| && run[i].Insert? ==> run[i].event.id !in used
    ensures ProperRun(s, run)
    decreases |run|
  {
    if run != [] {
      var step := run[0];
      var more := if step.Insert? then used + {step.event.id}
                  else if step.Intrude? && step.row.Good? then used + {step.row.event.id} else used;
      assert HeldWereOffered(Next(s, step), more);
      NeverReusedIsProper(Next(s, step), run[1..], more);
    }
  }

  /** Where no id is offered twice and others' rows name themselves, every run is
      proper, so nothing accepted is lost. */
  lemma UniqueIdsAreDeliveredAtLeastOnce(run: seq<Step>)
    requires Legal(EMPTY, run) && NeverReused(run) && SelfNaming(run)
    ensures ProperRun(EMPTY, run) && Safe(Exec(EMPTY, run))
  {
    NeverReusedIsProper(EMPTY, run, {});
    ExecKeepsInv(EMPTY, run);
  }

  // ----- the two conditions are exact -----

  /** Whatever happens next, short of another improper write, nothing is lost. */
  ghost predicate StaysSafe(s: Table) {
    forall run: seq<Step> :: Legal(s, run) && ProperRun(s, run) ==> Safe(Exec(s, run))
  }

  /** One proper step that can lead to a loss. */
  lemma LossAfter(s: Table, step: Step)
    requires Enabled(s, step) && Proper(s, step) && !StaysSafe(Next(s, step))
    ensures !StaysSafe(s)
  {
    var u := Next(s, step);
    var rest: seq<Step> :| Legal(u, rest) && ProperRun(u, rest) && !Safe(Exec(u, rest));
    var run := [step] + rest;
    assert run[1..] == rest;
    assert Legal(s, run) && ProperRun(s, run) && Exec(s, run) == Exec(u, rest);
  }

  lemma LossNow(s: Table)
    requires !Safe(s)
    ensures !StaysSafe(s)
  {
    assert Legal(s, []) && ProperRun(s, []) && Exec(s, []) == s;
  }

  lemma ProperStaysSafe(s: Table)
    requires Inv(s)
    ensures StaysSafe(s)
  {
    forall run: seq<Step> | Legal(s, run) && ProperRun(s, run) ensures Safe(Exec(s, run)) {
      ExecKeepsInv(s, run);
    }
  }

  /** Inserting an event is safe exactly when its id is free. */
  lemma InsertIsSafeIffIdIsFree(s: Table, e: Event)
    requires Inv(s) && Enabled(s, Insert(e))
    ensures StaysSafe(Next(s, Insert(e))) <==> IdIsFree(s, e)
  {
    var t := Next(s, Insert(e));
    if IdIsFree(s, e) {
      NextKeepsInv(s, Insert(e));
      ProperStaysSafe(t);
    } else {
      var d :| d in s.holding && s.holding[d].event.id == e.id && s.holding[d] != Picked(e);
      OldHolderDeletesTheRow(t, d, e);
    }
  }

  lemma OldHolderDeletesTheRow(t: Table, d: nat, e: Event)
    requires d in t.holding && t.holding[d].event.id == e.id && t.holding[d] != Picked(e) && e in t.pending
    ensures !StaysSafe(t)
    decreases t.holding[d].Picked?
  {
    if t.holding[d].Sent? {
      var u := Next(t, Mark(d, true));
      assert e in u.pending && e.id !in u.rows;
      LossNow(u);
      LossAfter(t, Mark(d, true));
    } else {
      OldHolderDeletesTheRow(Next(t, Publish(d, true)), d, e);
      LossAfter(t, Publish(d, true));
    }
  }

  /** A row that someone else writes is safe exactly when it names itself or
      nothing, or is refused. */
  lemma IntrudeIsSafeIffHarmless(s: Table, id: string, row: Row)
    requires Inv(s)
    ensures StaysSafe(Next(s, Intrude(id, row))) <==> Harmless(s, id, row)
  {
    var t := Next(s, Intrude(id, row));
    if Harmless(s, id, row) {
      NextKeepsInv(s, Intrude(id, row));
      ProperStaysSafe(t);
    } else {
      ForeignRowLeadsToLoss(t, id);
    }
  }

  /** The row at `id` names another, present or to come. */
  ghost predicate Foreign(t: Table, id: string) {
    id in t.rows && t.rows[id].Names() !in {id, ""}
  }

  /** The dispatchers crash; picking the foreign row deletes the row that it names
      and not itself; an event inserted under that id is deleted likewise. */
  lemma ForeignRowLeadsToLoss(t: Table, id: string)
    requires Foreign(t, id)
    ensures !StaysSafe(t)
    decreases |t.holding|
  {
    if t.holding != map[] {
      var d :| d in t.holding;
      assert t.holding.Keys - {d} == (t.holding - {d}).Keys;
      ForeignRowLeadsToLoss(Next(t, Crash(d)), id);
      LossAfter(t, Crash(d));
    } else if t.rows[id].Names() !in t.rows {
      InsertUnderNamedId(t, id);
    } else {
      DeleteNamedRow(t, id);
    }
  }

  lemma DeleteNamedRow(t: Table, id: string)
    requires Foreign(t, id) && t.holding == map[]
    ensures !StaysSafe(t)
  {
    var u := Next(t, Pick(0, id));
    if t.rows[id].Malformed? {
      InsertUnderNamedId(u, id);
    } else {
      var v := Next(u, Publish(0, true));
      assert v.holding == map[0 := Sent(t.rows[id].event)];
      InsertUnderNamedId(Next(v, Mark(0, true)), id);
      LossAfter(v, Mark(0, true));
      LossAfter(u, Publish(0, true));
    }
    LossAfter(t, Pick(0, id));
  }

  lemma InsertUnderNamedId(t: Table, id: string)
    requires Foreign(t, id) && t.holding == map[] && t.rows[id].Names() !in t.rows
    ensures !StaysSafe(t)
  {
    var row := t.rows[id];
    // any event under the named id, but not the row's own
    var taken := row.Good? && row.event.occurredAt == Some(0);
    var e := Event(row.Names(), "", "", "", "", Some(if taken then 1 else 0));
    PickingForeignRowLoses(Next(t, Insert(e)), id, e);
    LossAfter(t, Insert(e));
  }

  /** Picking a row that names a pending event's row loses that event. */
  lemma PickingForeignRowLoses(t: Table, id: string, e: Event)
    requires id in t.rows && t.rows[id].Names() == e.id && t.rows[id] != Good(e) && 0 !in t.holding
    requires e in t.pending
    ensures !StaysSafe(t)
  {
    var u := Next(t, Pick(0, id));
    if t.rows[id].Malformed? {
      assert e in u.pending && e.id !in u.rows;
      LossNow(u);
    } else {
      OldHolderDeletesTheRow(u, 0, e);
    }
    LossAfter(t, Pick(0, id));
  }

  /** Three steps that lose an event: it is inserted, another row that names it
      and does not decode is written, and a dispatcher picks that row. */
  lemma UndecodableRowCanLoseAnother(e: Event, id: string)
    requires id != e.id && e.id != "" && e.occurredAt.Some?
    ensures var run := [Insert(e), Intrude(id, Malformed(e.id)), Pick(0, id)];
      Legal(EMPTY, run) && var s := Exec(EMPTY, run);
      e in s.pending && e.id !in s.rows && id in s.rows
  {
    var run := [Insert(e), Intrude(id, Malformed(e.id)), Pick(0, id)];
    var s1 := Next(EMPTY, run[0]);
    var s2 := Next(s1, run[1]);
    var s3 := Next(s2, run[2]);
    assert run[1..][1..] == run[2..] && run[2..][1..] == [];
    assert Legal(s2, run[2..]) && Exec(s2, run[2..]) == s3;
    assert Legal(s1, run[1..]) && Exec(s1, run[1..]) == s3;
  }
}
