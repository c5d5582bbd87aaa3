/** Checking the answer to "the latest event at or below a version" against a ledger
    (types/src/contract_event.rs). */
module Events {
  import opened Wrappers

  type EventKey = nat

  datatype ContractEvent = ContractEvent(key: EventKey, sequenceNumber: nat, data: seq<nat>)

  /** The events of every transaction up to the ledger version. A ledger info commits to all of
      them, so an inclusion proof checks out exactly for what is there. */
  type Ledger = seq<seq<ContractEvent>>

  datatype EventWithProof = EventWithProof(transactionVersion: nat, eventIndex: nat, event: ContractEvent) {
    predicate Included(ledger: Ledger) {
      && transactionVersion < |ledger|
      && eventIndex < |ledger[transactionVersion]|
      && ledger[transactionVersion][eventIndex] == event
    }

    predicate Verify(ledger: Ledger, key: EventKey, sequenceNumber: nat, version: nat, index: nat) {
      && event.key == key
      && event.sequenceNumber == sequenceNumber
      && transactionVersion == version
      && eventIndex == index
      && Included(ledger)
    }
  }

  function SaturatingSucc(n: nat): nat {
    if n >= U64_MAX then U64_MAX else n + 1
  }

  datatype EventByVersionWithProof = EventByVersionWithProof(
    lowerBoundIncl: Option<EventWithProof>,
    upperBoundExcl: Option<EventWithProof>)
  {
    /** Without a count, the one that passes the checks of each case. */
    function AssumedCount(): nat {
      if upperBoundExcl.Some? then SaturatingSucc(upperBoundExcl.value.event.sequenceNumber)
      else if lowerBoundIncl.Some? then SaturatingSucc(lowerBoundIncl.value.event.sequenceNumber)
      else 0
    }

    predicate Verify(ledger: Ledger, key: EventKey, latestEventCount: Option<nat>, eventVersion: nat) {
      var count := if latestEventCount.Some? then latestEventCount.value else AssumedCount();
      && eventVersion < |ledger|
      && match (lowerBoundIncl, upperBoundExcl)
         case (None, None) => count == 0
         case (None, Some(first)) =>
           && eventVersion < first.transactionVersion
           && first.event.sequenceNumber == 0
           && count > 0
           && first.Verify(ledger, key, 0, first.transactionVersion, first.eventIndex)
         case (Some(lower), Some(upper)) =>
           && lower.transactionVersion <= eventVersion < upper.transactionVersion
           && SaturatingSucc(lower.event.sequenceNumber) == upper.event.sequenceNumber
           && count > upper.event.sequenceNumber
           && lower.Verify(ledger, key, lower.event.sequenceNumber, lower.transactionVersion, lower.eventIndex)
           && upper.Verify(ledger, key, upper.event.sequenceNumber, upper.transactionVersion, upper.eventIndex)
         case (Some(latest), None) =>
           && latest.transactionVersion <= eventVersion
           && SaturatingSucc(latest.event.sequenceNumber) == count
           && latest.Verify(ledger, key, latest.event.sequenceNumber, latest.transactionVersion, latest.eventIndex)
    }
  }

  // ----- The stream of events under a key -----

  /** `stream` lists all events under `key`: the i-th has sequence number i, versions never go down,
      and nothing else in the ledger has that key. */
  ghost predicate IsStream(ledger: Ledger, key: EventKey, stream: seq<EventWithProof>) {
    && |stream| <= U64_MAX
    && (forall i :: 0 <= i < |stream| ==>
          stream[i].Included(ledger) && stream[i].event.key == key && stream[i].event.sequenceNumber == i)
    && (forall i, j :: 0 <= i <= j < |stream| ==> stream[i].transactionVersion <= stream[j].transactionVersion)
    && (forall e: EventWithProof :: e.Included(ledger) && e.event.key == key ==> e in stream)
  }

  /** How many events lie at or below the version. */
  function CountUpTo(stream: seq<EventWithProof>, version: nat): (k: nat)
    ensures k <= |stream|
  {
    if stream == [] then 0
    else if stream[|stream| - 1].transactionVersion <= version then |stream|
    else CountUpTo(stream[..|stream| - 1], version)
  }

  lemma {:induction false} CountUpToIs(stream: seq<EventWithProof>, version: nat)
    requires forall i, j :: 0 <= i <= j < |stream| ==> stream[i].transactionVersion <= stream[j].transactionVersion
    ensures forall i :: 0 <= i < |stream| ==>
                          (stream[i].transactionVersion <= version <==> i < CountUpTo(stream, version))
  {
    if stream != [] && stream[|stream| - 1].transactionVersion > version {
      var front := stream[..|stream| - 1];
      CountUpToIs(front, version);
      assert forall i :: 0 <= i < |front| ==> front[i] == stream[i];
    }
  }

  /** The right answer: the last event at or below the version and the first one above it. */
  function Answer(stream: seq<EventWithProof>, version: nat): EventByVersionWithProof {
    var k := CountUpTo(stream, version);
    EventByVersionWithProof(
      if k > 0 then Some(stream[k - 1]) else None,
      if k < |stream| then Some(stream[k]) else None)
  }

  /** An event under the key sits in the stream at its sequence number. */
  lemma {:induction false} AtItsNumber(ledger: Ledger, key: EventKey, stream: seq<EventWithProof>, e: EventWithProof)
    requires IsStream(ledger, key, stream) && e.Included(ledger) && e.event.key == key
    ensures e.event.sequenceNumber < |stream| && stream[e.event.sequenceNumber] == e
  {
    assert e in stream;
    var i :| 0 <= i < |stream| && stream[i] == e;
  }

  /** Which answers are accepted for a count of `n` events, true or not: between two events the right one if
      the upper is among the `n`; otherwise the last of the `n` if it is not above the version; and the
      empty answer for no events. */
  lemma {:induction false} AcceptedWithCount(ledger: Ledger, key: EventKey, stream: seq<EventWithProof>,
                                             version: nat, n: nat, a: EventByVersionWithProof)
    requires IsStream(ledger, key, stream)
    ensures a.Verify(ledger, key, Some(n), version) <==>
            && version < |ledger|
            && if a.upperBoundExcl.Some? then
                 a == Answer(stream, version) && a.upperBoundExcl.value.event.sequenceNumber < n
               else if n == 0 then a.lowerBoundIncl.None?
               else
                 && n <= |stream| && a.lowerBoundIncl == Some(stream[n - 1])
                 && stream[n - 1].transactionVersion <= version
  {
    CountUpToIs(stream, version);
    if a.Verify(ledger, key, Some(n), version) {
      if a.lowerBoundIncl.Some? {
        AtItsNumber(ledger, key, stream, a.lowerBoundIncl.value);
      }
      if a.upperBoundExcl.Some? {
        AtItsNumber(ledger, key, stream, a.upperBoundExcl.value);
      }
    }
  }

  /** With the true event count, exactly the right answer is accepted, at every version of the ledger. */
  lemma {:induction false} AcceptsExactlyTheAnswer(ledger: Ledger, key: EventKey, stream: seq<EventWithProof>,
                                                   version: nat, a: EventByVersionWithProof)
    requires IsStream(ledger, key, stream)
    ensures a.Verify(ledger, key, Some(|stream|), version) <==> version < |ledger| && a == Answer(stream, version)
  {
    CountUpToIs(stream, version);
    AcceptedWithCount(ledger, key, stream, version, |stream|, a);
  }

  /** So the accepted lower bound is the latest event at or below the version, and there is none
      exactly if no event is that old. */
  lemma {:induction false} AcceptedLowerBoundIsLatest(ledger: Ledger, key: EventKey, stream: seq<EventWithProof>,
                                                      version: nat, a: EventByVersionWithProof)
    requires IsStream(ledger, key, stream) && a.Verify(ledger, key, Some(|stream|), version)
    ensures forall e: EventWithProof :: e.Included(ledger) && e.event.key == key && e.transactionVersion <= version ==>
              && a.lowerBoundIncl.Some?
              && e.event.sequenceNumber <= a.lowerBoundIncl.value.event.sequenceNumber
    ensures a.lowerBoundIncl.Some? ==>
              a.lowerBoundIncl.value in stream && a.lowerBoundIncl.value.transactionVersion <= version
  {
    AcceptsExactlyTheAnswer(ledger, key, stream, version, a);
    CountUpToIs(stream, version);
    forall e: EventWithProof | e.Included(ledger) && e.event.key == key && e.transactionVersion <= version
      ensures a.lowerBoundIncl.Some? && e.event.sequenceNumber <= a.lowerBoundIncl.value.event.sequenceNumber
    {
      AtItsNumber(ledger, key, stream, e);
    }
  }

  /** Without a count, an answer with an upper bound is accepted exactly if it is right; one without
      is accepted as soon as its lower bound, if any, is some event at or below the version. */
  lemma {:induction false} AcceptedWithoutCount(ledger: Ledger, key: EventKey, stream: seq<EventWithProof>,
                                                version: nat, a: EventByVersionWithProof)
    requires IsStream(ledger, key, stream) && version < |ledger|
    ensures a.Verify(ledger, key, None, version) <==>
            if a.upperBoundExcl.Some? then a == Answer(stream, version)
            else a.lowerBoundIncl.None?
                 || (a.lowerBoundIncl.value in stream && a.lowerBoundIncl.value.transactionVersion <= version)
  {
    CountUpToIs(stream, version);
    if a.Verify(ledger, key, None, version) {
      if a.lowerBoundIncl.Some? {
        AtItsNumber(ledger, key, stream, a.lowerBoundIncl.value);
      }
      if a.upperBoundExcl.Some? {
        AtItsNumber(ledger, key, stream, a.upperBoundExcl.value);
      }
    }
  }

  /** Without a count the right answer always passes, but it is the only one that does exactly if
      the key has no events at all: the empty answer passes for every key. */
  lemma {:induction false} DecidedWithoutCountIff(ledger: Ledger, key: EventKey, stream: seq<EventWithProof>,
                                                  version: nat)
    requires IsStream(ledger, key, stream) && version < |ledger|
    ensures Answer(stream, version).Verify(ledger, key, None, version)
    ensures (forall a: EventByVersionWithProof :: a.Verify(ledger, key, None, version) ==> a == Answer(stream, version))
       <==> stream == []
  {
    AcceptedWithoutCount(ledger, key, stream, version, Answer(stream, version));
    var empty := EventByVersionWithProof(None, None);
    assert empty.Verify(ledger, key, None, version);
    forall a: EventByVersionWithProof | stream == [] && a.Verify(ledger, key, None, version)
      ensures a == Answer(stream, version)
    {
      AcceptedWithoutCount(ledger, key, stream, version, a);
    }
  }
}
