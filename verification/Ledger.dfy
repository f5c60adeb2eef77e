/**
 The append-only ledger of provider events. A provider may deliver one event many times, under the
 same delivery id or as the same version of the same object; either key makes it one row.
 */
module Ledger {
  import opened Common

  datatype Provider = GitHub | GitLab | Gitee

  datatype Outcome =
    | Attempt | CIPassed | CIFailed | Reviewed | ChangesRequested | Approved | Merged | Closed | Reverted | IssueReopened

  datatype Kind =
    | PROpened | PRSynchronized | Commit | CI | Review | ChangesRequestedEvent | ApprovedEvent | MergedEvent
    | ClosedEvent | RevertedEvent | IssueReopenedEvent

  /** A provider payload: its canonical text, and the one flag the projector reads from it. */
  datatype Payload = Payload(canonical: string, independentMaintainer: bool)

  datatype Event = Event(
    id: int, contributionId: string, provider: Provider, deliveryId: string, objectVersion: string, kind: Kind,
    outcome: Outcome, commit: string, payload: Payload, occurredAt: int, receivedAt: int)

  /** The provider's facts, without the keys a redelivery may change. */
  predicate SameContent(a: Event, b: Event) {
    && a.contributionId == b.contributionId && a.provider == b.provider && a.kind == b.kind && a.outcome == b.outcome
    && a.commit == b.commit && a.occurredAt == b.occurredAt && a.payload.canonical == b.payload.canonical
  }

  predicate SameDelivery(row: Event, e: Event) {
    e.deliveryId != "" && row.deliveryId == e.deliveryId && row.provider == e.provider
  }

  predicate SameObject(row: Event, e: Event) {
    && e.objectVersion != "" && row.objectVersion == e.objectVersion
    && row.contributionId == e.contributionId && row.provider == e.provider && row.kind == e.kind
  }

  predicate Keyed(e: Event) {
    e.deliveryId != "" || e.objectVersion != ""
  }

  /** The table with its generated ids and its two unique indexes. */
  ghost predicate Unique(rows: seq<Event>) {
    forall i, j :: 0 <= i < j < |rows| ==>
      rows[i].id != rows[j].id && !SameDelivery(rows[i], rows[j]) && !SameObject(rows[i], rows[j])
  }

  predicate KeyTaken(rows: seq<Event>, e: Event) {
    exists i :: 0 <= i < |rows| && (SameDelivery(rows[i], e) || SameObject(rows[i], e))
  }

  function ByDelivery(rows: seq<Event>, e: Event): Option<Event>
    decreases |rows|
  {
    if rows == [] then None
    else if SameDelivery(rows[0], e) then Some(rows[0])
    else ByDelivery(rows[1..], e)
  }

  function ByObject(rows: seq<Event>, e: Event): Option<Event>
    decreases |rows|
  {
    if rows == [] then None
    else if SameObject(rows[0], e) then Some(rows[0])
    else ByObject(rows[1..], e)
  }

  /** The row a conflicting append stands for, if both keys agree on one and nothing in it differs. */
  function Existing(rows: seq<Event>, e: Event): Result<Event> {
    var delivery, object_ := ByDelivery(rows, e), ByObject(rows, e);
    if delivery.Some? && object_.Some? && delivery.value.id != object_.value.id then Err(StateConflict)
    else if delivery.Some? then
      if !SameContent(delivery.value, e) then Err(StateConflict)
      else if delivery.value.objectVersion != "" && e.objectVersion != "" && delivery.value.objectVersion != e.objectVersion then
        Err(StateConflict)
      else Ok(delivery.value)
    else if object_.Some? then if SameContent(object_.value, e) then Ok(object_.value) else Err(StateConflict)
    else Err(StateConflict)
  }

  datatype Appended = Appended(event: Event, inserted: bool)

  datatype Log = Log(rows: seq<Event>, result: Result<Appended>)

  /** `contributions` holds the (contribution, provider) pairs the foreign key refers to. */
  function AppendEvent(rows: seq<Event>, contributions: set<(string, Provider)>, e: Event, newId: int): Log {
    if !Keyed(e) then Log(rows, Err(Internal))
    else if KeyTaken(rows, e) then
      var existing := Existing(rows, e);
      Log(rows, if existing.Ok? then Ok(Appended(existing.value, false)) else Err(existing.code))
    else if (e.contributionId, e.provider) !in contributions then Log(rows, Err(Internal))
    else Log(rows + [e.(id := newId)], Ok(Appended(e.(id := newId), true)))
  }

  class Repository {
    var rows: seq<Event>
    const contributions: set<(string, Provider)>

    constructor (contributions: set<(string, Provider)>)
      ensures rows == [] && this.contributions == contributions
    {
      rows, this.contributions := [], contributions;
    }

    method FindIdempotentEvent(expected: Event) returns (r: Result<Event>)
      ensures r == Existing(rows, expected)
    {
      var byDelivery: Option<Event> := None;
      if expected.deliveryId != "" {
        byDelivery := ByDelivery(rows, expected);
      } else {
        NoneByDelivery(rows, expected);
      }
      var byObject: Option<Event> := None;
      if expected.objectVersion != "" {
        byObject := ByObject(rows, expected);
      } else {
        NoneByObject(rows, expected);
      }
      if byDelivery.Some? && byObject.Some? && byDelivery.value.id != byObject.value.id {
        return Err(StateConflict);
      }
      if byDelivery.Some? {
        if !SameContent(byDelivery.value, expected) {
          return Err(StateConflict);
        }
        if byDelivery.value.objectVersion != "" && expected.objectVersion != "" &&
           byDelivery.value.objectVersion != expected.objectVersion {
          return Err(StateConflict);
        }
        return Ok(byDelivery.value);
      }
      if byObject.Some? {
        if !SameContent(byObject.value, expected) {
          return Err(StateConflict);
        }
        return Ok(byObject.value);
      }
      return Err(StateConflict);
    }

    method Append(e: Event, newId: int) returns (r: Result<Appended>)
      modifies this`rows
      ensures Log(rows, r) == AppendEvent(old(rows), contributions, e, newId)
    {
      if !Keyed(e) {
        return Err(Internal);
      }
      if !KeyTaken(rows, e) {
        if (e.contributionId, e.provider) !in contributions {
          return Err(Internal);
        }
        rows := rows + [e.(id := newId)];
        return Ok(Appended(e.(id := newId), true));
      }
      var existing := FindIdempotentEvent(e);
      if existing.Err? {
        return Err(existing.code);
      }
      return Ok(Appended(existing.value, false));
    }
  }

  // ------------------------------------------------------------------ lookups

  lemma {:induction false} NoneByDelivery(rows: seq<Event>, e: Event)
    ensures ByDelivery(rows, e) == None <==> forall i :: 0 <= i < |rows| ==> !SameDelivery(rows[i], e)
    decreases |rows|
  {
    if rows != [] {
      NoneByDelivery(rows[1..], e);
    }
  }

  lemma {:induction false} NoneByObject(rows: seq<Event>, e: Event)
    ensures ByObject(rows, e) == None <==> forall i :: 0 <= i < |rows| ==> !SameObject(rows[i], e)
    decreases |rows|
  {
    if rows != [] {
      NoneByObject(rows[1..], e);
    }
  }

  lemma {:induction false} DeliveryOf(rows: seq<Event>, e: Event, i: nat)
    requires Unique(rows) && i < |rows| && SameDelivery(rows[i], e)
    ensures ByDelivery(rows, e) == Some(rows[i])
    decreases |rows|
  {
    if i > 0 {
      assert !SameDelivery(rows[0], rows[i]);
      DeliveryOf(rows[1..], e, i - 1);
    }
  }

  lemma {:induction false} ObjectOf(rows: seq<Event>, e: Event, i: nat)
    requires Unique(rows) && i < |rows| && SameObject(rows[i], e)
    ensures ByObject(rows, e) == Some(rows[i])
    decreases |rows|
  {
    if i > 0 {
      assert !SameObject(rows[0], rows[i]);
      ObjectOf(rows[1..], e, i - 1);
    }
  }

  // ---------------------------------------------------------------- one append

  /** Appending keeps the keys unique and never removes or changes a row. */
  lemma AppendKeepsUnique(rows: seq<Event>, contributions: set<(string, Provider)>, e: Event, newId: int)
    requires Unique(rows) && (forall i :: 0 <= i < |rows| ==> rows[i].id != newId)
    ensures Unique(AppendEvent(rows, contributions, e, newId).rows)
    ensures rows <= AppendEvent(rows, contributions, e, newId).rows
  {
    var after := AppendEvent(rows, contributions, e, newId).rows;
    if after != rows {
      forall i, j | 0 <= i < j < |after|
        ensures after[i].id != after[j].id && !SameDelivery(after[i], after[j]) && !SameObject(after[i], after[j])
      {
        assert after[i] == rows[i];
        assert j == |rows| || after[j] == rows[j];
      }
    }
  }

  /**
   A conflicting append succeeds on row `i` exactly when that row has the same content, shares one of
   its keys, and neither key belongs to another row or disagrees about the object version.
   */
  lemma RedeliveryIff(rows: seq<Event>, contributions: set<(string, Provider)>, e: Event, newId: int, i: nat)
    requires Unique(rows) && i < |rows|
    ensures AppendEvent(rows, contributions, e, newId).result == Ok(Appended(rows[i], false)) <==>
              && (SameDelivery(rows[i], e) || SameObject(rows[i], e))
              && SameContent(rows[i], e)
              && (SameDelivery(rows[i], e) && rows[i].objectVersion != "" && e.objectVersion != "" ==>
                    rows[i].objectVersion == e.objectVersion)
              && forall j :: 0 <= j < |rows| && j != i ==> !SameDelivery(rows[j], e) && !SameObject(rows[j], e)
  {
    NoneByDelivery(rows, e);
    NoneByObject(rows, e);
    if d: nat :| d < |rows| && SameDelivery(rows[d], e) {
      DeliveryOf(rows, e, d);
      assert d != i ==> rows[d].id != rows[i].id;
    }
    if o: nat :| o < |rows| && SameObject(rows[o], e) {
      ObjectOf(rows, e, o);
      assert o != i ==> rows[o].id != rows[i].id;
    }
  }

  // ------------------------------------------------------------------- replays

  datatype Delivery = Delivery(event: Event, newId: int)

  /** The ledger after a whole log of deliveries. */
  function AppendAll(rows: seq<Event>, contributions: set<(string, Provider)>, log: seq<Delivery>): seq<Event>
    decreases |log|
  {
    if log == [] then rows
    else AppendAll(AppendEvent(rows, contributions, log[0].event, log[0].newId).rows, contributions, log[1..])
  }

  lemma {:induction false} TakenStaysTaken(rows: seq<Event>, contributions: set<(string, Provider)>, log: seq<Delivery>, e: Event)
    requires KeyTaken(rows, e)
    ensures KeyTaken(AppendAll(rows, contributions, log), e)
    decreases |log|
  {
    if log != [] {
      var next := AppendEvent(rows, contributions, log[0].event, log[0].newId).rows;
      var i :| 0 <= i < |rows| && (SameDelivery(rows[i], e) || SameObject(rows[i], e));
      assert next[i] == rows[i];
      TakenStaysTaken(next, contributions, log[1..], e);
    }
  }

  /** A delivery that was processed is absorbed for good: it took its key, or can never insert at all. */
  predicate Absorbed(rows: seq<Event>, contributions: set<(string, Provider)>, e: Event) {
    !Keyed(e) || KeyTaken(rows, e) || (e.contributionId, e.provider) !in contributions
  }

  lemma AbsorbedAfter(rows: seq<Event>, contributions: set<(string, Provider)>, e: Event, newId: int)
    ensures Absorbed(AppendEvent(rows, contributions, e, newId).rows, contributions, e)
  {
    var after := AppendEvent(rows, contributions, e, newId).rows;
    if Keyed(e) && after != rows {
      assert SameDelivery(after[|rows|], e) || SameObject(after[|rows|], e);
    }
  }

  /** An append changes the ledger exactly when the event is not absorbed yet. */
  lemma ChangesIffNotAbsorbed(rows: seq<Event>, contributions: set<(string, Provider)>, e: Event, newId: int)
    ensures AppendEvent(rows, contributions, e, newId).rows == rows <==> Absorbed(rows, contributions, e)
  {
    assert |rows + [e.(id := newId)]| == |rows| + 1;
  }

  lemma {:induction false} LogIsAbsorbed(rows: seq<Event>, contributions: set<(string, Provider)>, log: seq<Delivery>, i: nat)
    requires i < |log|
    ensures Absorbed(AppendAll(rows, contributions, log), contributions, log[i].event)
    decreases |log|
  {
    var next := AppendEvent(rows, contributions, log[0].event, log[0].newId).rows;
    if i == 0 {
      AbsorbedAfter(rows, contributions, log[0].event, log[0].newId);
      if KeyTaken(next, log[0].event) {
        TakenStaysTaken(next, contributions, log[1..], log[0].event);
      }
    } else {
      LogIsAbsorbed(next, contributions, log[1..], i - 1);
    }
  }

  lemma {:induction false} AppendAllSplits(
    rows: seq<Event>, contributions: set<(string, Provider)>, first: seq<Delivery>, second: seq<Delivery>)
    ensures AppendAll(rows, contributions, first + second) == AppendAll(AppendAll(rows, contributions, first), contributions, second)
    decreases |first|
  {
    if first == [] {
      assert first + second == second;
    } else {
      assert (first + second)[1..] == first[1..] + second;
      AppendAllSplits(AppendEvent(rows, contributions, first[0].event, first[0].newId).rows, contributions, first[1..], second);
    }
  }

  /**
   Redelivery is a no-op: after any log, delivering again any of its events, any number of times and
   in any order, accepted or refused the first time, leaves the ledger as it is.
   */
  lemma {:induction false} RedeliveryIsNoOp(
    rows: seq<Event>, contributions: set<(string, Provider)>, log: seq<Delivery>, again: seq<Delivery>)
    requires forall j :: 0 <= j < |again| ==> exists i :: 0 <= i < |log| && log[i].event == again[j].event
    ensures AppendAll(rows, contributions, log + again) == AppendAll(rows, contributions, log)
    decreases |again|
  {
    AppendAllSplits(rows, contributions, log, again);
    if again != [] {
      var i :| 0 <= i < |log| && log[i].event == again[0].event;
      LogIsAbsorbed(rows, contributions, log, i);
      ChangesIffNotAbsorbed(AppendAll(rows, contributions, log), contributions, again[0].event, again[0].newId);
      RedeliveryIsNoOp(rows, contributions, log, again[1..]);
      AppendAllSplits(rows, contributions, log, again[1..]);
    }
  }
}
