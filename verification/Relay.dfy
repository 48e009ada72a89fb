/**
  The best bid a relay keeps for a slot, next to the bids it stores: the last cancellable bid of each
  builder and the highest uncancellable one.
 */
module Relay {
  import opened Wrappers

  type Byte = n: nat | n < 256

  /** The public key of a builder for its cancellable bids; empty for the uncancellable bid. */
  type Key = seq<Byte>

  const UNCANCELLABLE: Key := []
  const PUBLIC_KEY_BYTES := 48

  datatype Bid = Bid(hash: nat, value: nat, builder: Key)

  datatype Submission = Submission(slot: nat, parent: nat, bid: Bid, cancellable: bool)

  datatype RelayError = PastSlot | PayloadAttributesNotKnown

  datatype State = State(best: Option<Bid>, bids: map<Key, Bid>)

  ghost predicate WellFormed(s: Submission) {
    |s.bid.builder| == PUBLIC_KEY_BYTES
  }

  // ---------------------------------------------------------------------------
  // One submission

  function EntryKey(s: Submission): Key {
    if s.cancellable then s.bid.builder else UNCANCELLABLE
  }

  /** The stored bids with the new one. */
  function Stored(bids: map<Key, Bid>, s: Submission): map<Key, Bid> {
    if !s.cancellable && UNCANCELLABLE in bids && s.bid.value <= bids[UNCANCELLABLE].value then bids
    else bids[EntryKey(s) := s.bid]
  }

  /** The new bid takes the place of the best one, judged by builder and hash. */
  predicate ReplacesBest(st: State, s: Submission)
    requires s.bid.builder in st.bids
  {
    st.best.Some? && st.best.value.builder == st.bids[s.bid.builder].builder
    && st.best.value.hash == st.bids[s.bid.builder].hash
  }

  /** Whether the best bid is computed anew. */
  predicate Recomputes(st: State, s: Submission) {
    if s.cancellable && s.bid.builder in st.bids then ReplacesBest(st, s)
    else st.best.None? || s.bid.value > st.best.value.value
  }

  ghost predicate IsHighest(bids: map<Key, Bid>, best: Option<Bid>) {
    if bids == map[] then best == None
    else best.Some? && (exists k :: k in bids && bids[k] == best.value)
         && forall k :: k in bids ==> bids[k].value <= best.value.value
  }

  /** The states that can follow; bids of equal value leave a choice. */
  ghost predicate Next(st: State, s: Submission, end: State) {
    && end.bids == Stored(st.bids, s)
    && if Recomputes(st, s) then IsHighest(end.bids, end.best) else end.best == st.best
  }

  class PendingSlotData {
    const slot: nat
    const parent: nat
    var best: Option<Bid>
    var bids: map<Key, Bid>

    ghost function Now(): State
      reads this
    {
      State(best, bids)
    }

    constructor (slot: nat, parent: nat)
      ensures this.slot == slot && this.parent == parent && Now() == State(None, map[])
    {
      this.slot := slot;
      this.parent := parent;
      best := None;
      bids := map[];
    }

    function Check(s: Submission): (r: Option<RelayError>)
      ensures r.None? <==> s.slot == slot && s.parent == parent
      ensures r == Some(PastSlot) <==> s.slot < slot
    {
      if slot > s.slot then Some(PastSlot)
      else if slot < s.slot then Some(PayloadAttributesNotKnown)
      else if parent != s.parent then Some(PayloadAttributesNotKnown)
      else None
    }

    method AddNewSubmission(s: Submission)
      requires WellFormed(s)
      modifies this
      ensures Check(s).Some? ==> Now() == old(Now())
      ensures Check(s).None? ==> Next(old(Now()), s, Now())
      ensures s.slot == slot && s.parent == parent && s.cancellable ==> bids == old(bids)[s.bid.builder := s.bid]
      ensures s.slot == slot && s.parent == parent && !s.cancellable ==>
                bids == if [] in old(bids) && s.bid.value <= old(bids)[[]].value then old(bids)
                        else old(bids)[[] := s.bid]
      ensures old(best).Some? && s.bid.value <= old(best).value.value ==>
                best == old(best) || (s.cancellable && s.bid.builder in old(bids))
    {
      if Check(s).Some? {
        return;
      }
      var update: bool;
      if s.cancellable {
        var key := s.bid.builder;
        if key in bids {
          var replaced := bids[key];
          update := best.Some? && best.value.builder == replaced.builder && best.value.hash == replaced.hash;
        } else {
          update := best.None? || s.bid.value > best.value.value;
        }
        bids := bids[key := s.bid];
      } else {
        update := best.None? || s.bid.value > best.value.value;
        if UNCANCELLABLE in bids {
          if s.bid.value > bids[UNCANCELLABLE].value {
            bids := bids[UNCANCELLABLE := s.bid];
          }
        } else {
          bids := bids[UNCANCELLABLE := s.bid];
        }
      }
      if update {
        best := Highest(bids);
      }
    }
  }

  method Highest(bids: map<Key, Bid>) returns (best: Option<Bid>)
    ensures IsHighest(bids, best)
  {
    best := None;
    var rest := bids.Keys;
    while rest != {}
      invariant rest <= bids.Keys
      invariant best.None? <==> rest == bids.Keys
      invariant best.Some? ==> exists k :: k in bids && bids[k] == best.value
      invariant best.Some? ==> forall k :: k in bids && k !in rest ==> bids[k].value <= best.value.value
      decreases |rest|
    {
      var k :| k in rest;
      if best.None? || bids[k].value >= best.value.value {
        best := Some(bids[k]);
      }
      rest := rest - {k};
      assert k !in rest;
    }
  }

  // ---------------------------------------------------------------------------
  // Any run of submissions

  /** The states of a slot before and after each of the submissions for it. */
  ghost predicate IsRun(states: seq<State>, subs: seq<Submission>) {
    && |states| == |subs| + 1 && states[0] == State(None, map[])
    && (forall i :: 0 <= i < |subs| ==> WellFormed(subs[i]))
    && (forall i :: 0 <= i < |subs| ==> Next(states[i], subs[i], states[i + 1]))
  }

  /** The last cancellable bid of a builder. */
  function LastBid(subs: seq<Submission>, builder: Key): Option<Bid> {
    if subs == [] then None
    else
      var s := subs[|subs| - 1];
      if s.cancellable && s.bid.builder == builder then Some(s.bid) else LastBid(subs[..|subs| - 1], builder)
  }

  /** The bid is the first uncancellable one of the highest value. */
  ghost predicate IsTopUncancellable(subs: seq<Submission>, bid: Bid) {
    && (exists i :: 0 <= i < |subs| && !subs[i].cancellable && subs[i].bid == bid
                 && forall j :: 0 <= j < i && !subs[j].cancellable ==> subs[j].bid.value < bid.value)
    && (forall j :: 0 <= j < |subs| && !subs[j].cancellable ==> subs[j].bid.value <= bid.value)
  }

  ghost predicate StoresHistory(bids: map<Key, Bid>, subs: seq<Submission>) {
    && (forall k :: k != UNCANCELLABLE ==>
          (k in bids <==> LastBid(subs, k).Some?) && (k in bids ==> bids[k] == LastBid(subs, k).value))
    && (UNCANCELLABLE in bids <==> exists i :: 0 <= i < |subs| && !subs[i].cancellable)
    && (UNCANCELLABLE in bids ==> IsTopUncancellable(subs, bids[UNCANCELLABLE]))
  }

  /** The best bid is a stored one, absent only when there is none, and not below the uncancellable one. */
  ghost predicate BestIsLive(st: State) {
    && (st.best.None? <==> st.bids == map[])
    && (st.best.Some? ==> exists k :: k in st.bids && st.bids[k] == st.best.value)
    && (UNCANCELLABLE in st.bids ==> st.best.Some? && st.bids[UNCANCELLABLE].value <= st.best.value.value)
  }

  lemma NextKeepsBestLive(st: State, s: Submission, end: State)
    requires WellFormed(s) && BestIsLive(st) && Next(st, s, end)
    ensures BestIsLive(end)
  {
    assert EntryKey(s) in end.bids;
    if !Recomputes(st, s) && st.best.Some? {
      var k :| k in st.bids && st.bids[k] == st.best.value;
      assert end.bids[k] == st.best.value;
    }
  }

  lemma TopUncancellableStep(subs: seq<Submission>, s: Submission, bid: Bid)
    requires IsTopUncancellable(subs, bid)
    ensures IsTopUncancellable(subs + [s], if !s.cancellable && s.bid.value > bid.value then s.bid else bid)
  {
    var next := subs + [s];
    var i :| 0 <= i < |subs| && !subs[i].cancellable && subs[i].bid == bid
          && forall j :: 0 <= j < i && !subs[j].cancellable ==> subs[j].bid.value < bid.value;
    assert next[i] == subs[i] && next[|subs|] == s;
  }

  lemma NextStoresHistory(st: State, subs: seq<Submission>, s: Submission, end: State)
    requires WellFormed(s) && StoresHistory(st.bids, subs) && Next(st, s, end)
    ensures StoresHistory(end.bids, subs + [s])
  {
    var next := subs + [s];
    assert next[..|subs|] == subs && next[|subs|] == s;
    assert forall i :: 0 <= i < |subs| ==> next[i] == subs[i];
    if UNCANCELLABLE in st.bids {
      TopUncancellableStep(subs, s, st.bids[UNCANCELLABLE]);
    } else if !s.cancellable {
      assert IsTopUncancellable(next, s.bid);
    }
  }

  /** In every state of every run the best bid is live and the stored bids are those of the history. */
  lemma {:induction false} RunInvariant(states: seq<State>, subs: seq<Submission>)
    requires IsRun(states, subs)
    ensures BestIsLive(states[|subs|]) && StoresHistory(states[|subs|].bids, subs)
  {
    if subs != [] {
      var n := |subs| - 1;
      RunInvariant(states[..n + 1], subs[..n]);
      assert subs == subs[..n] + [subs[n]];
      NextKeepsBestLive(states[n], subs[n], states[n + 1]);
      NextStoresHistory(states[n], subs[..n], subs[n], states[n + 1]);
    }
  }

  // ---------------------------------------------------------------------------
  // When the best bid is the highest one

  ghost predicate BestIsHighest(st: State) {
    IsHighest(st.bids, st.best)
  }

  /** A builder raises its own bid, which was not the best one, above the best one. */
  predicate RaisesOther(st: State, s: Submission) {
    && s.cancellable && s.bid.builder in st.bids && !ReplacesBest(st, s)
    && st.best.Some? && s.bid.value > st.best.value.value
  }

  /** The best bid stays the highest exactly when no builder raises another bid above it. */
  lemma HighestUnlessRaised(st: State, s: Submission, end: State)
    requires WellFormed(s) && BestIsLive(st) && BestIsHighest(st) && Next(st, s, end)
    ensures BestIsHighest(end) <==> !RaisesOther(st, s)
  {
    NextKeepsBestLive(st, s, end);
    assert EntryKey(s) in end.bids;
    if RaisesOther(st, s) {
      assert end.bids[s.bid.builder].value > end.best.value.value;
    }
  }

  lemma {:induction false} HighestWhileNotRaised(states: seq<State>, subs: seq<Submission>)
    requires IsRun(states, subs) && forall i :: 0 <= i < |subs| ==> !RaisesOther(states[i], subs[i])
    ensures BestIsHighest(states[|subs|])
  {
    if subs != [] {
      var n := |subs| - 1;
      HighestWhileNotRaised(states[..n + 1], subs[..n]);
      RunInvariant(states[..n + 1], subs[..n]);
      HighestUnlessRaised(states[n], subs[n], states[n + 1]);
    }
  }

  /** The best bid is the highest throughout a run exactly when no submission of it raises another bid above it. */
  lemma HighestThroughoutRun(states: seq<State>, subs: seq<Submission>)
    requires IsRun(states, subs)
    ensures (forall i :: 0 <= i < |states| ==> BestIsHighest(states[i]))
       <==> (forall i :: 0 <= i < |subs| ==> !RaisesOther(states[i], subs[i]))
  {
    if forall i :: 0 <= i < |subs| ==> !RaisesOther(states[i], subs[i]) {
      forall i | 0 <= i < |states|
        ensures BestIsHighest(states[i])
      {
        HighestWhileNotRaised(states[..i + 1], subs[..i]);
      }
    }
    if i :| 0 <= i < |subs| && RaisesOther(states[i], subs[i]) {
      RunInvariant(states[..i + 1], subs[..i]);
      if BestIsHighest(states[i]) {
        HighestUnlessRaised(states[i], subs[i], states[i + 1]);
      }
    }
  }

  /** Bids of 10 and 5, and the 5 raised to 20: the best bid is still the one of 10. */
  lemma RaisedBidMissed(states: seq<State>, subs: seq<Submission>)
    requires IsRun(states, subs) && |subs| == 3
    requires forall i :: 0 <= i < 3 ==> subs[i].cancellable
    requires subs[0].bid.builder != subs[1].bid.builder && subs[1].bid.builder == subs[2].bid.builder
    requires subs[0].bid.value == 10 && subs[1].bid.value == 5 && subs[2].bid.value == 20
    ensures states[3].best == Some(subs[0].bid) && states[3].bids[subs[1].bid.builder].value == 20
  {
  }
}
