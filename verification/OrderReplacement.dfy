/**
  Replacement and cancellation of orders by key and sequence number, with notifications that may
  arrive in any sequence, and the store of live orders behind it.
 */
module OrderReplacement {
  import opened Wrappers

  const U64_MAX: nat := 0xFFFF_FFFF_FFFF_FFFF

  type OrderId = nat

  type Sequence = n: nat | n <= U64_MAX

  datatype Key = BundleKey(id: nat) | ShareBundleKey(id: nat)

  /** An order; its sequence number only matters with a replacement key. */
  datatype Order = Order(id: OrderId, key: Option<Key>, sequence: Sequence, content: nat)

  datatype Command =
    | NewOrder(order: Order)
    | CancelBundle(bundle: nat, sequence: Sequence)
    | CancelShareBundle(bundle: nat)
  {
    /** The key the command is about. */
    function Key(): Option<Key> {
      match this
      case NewOrder(o) => o.key
      case CancelBundle(b, _) => Some(BundleKey(b))
      case CancelShareBundle(b) => Some(ShareBundleKey(b))
    }

    /** Its sequence number; cancelling a share bundle is final. */
    function Sequence(): Sequence {
      match this
      case NewOrder(o) => o.sequence
      case CancelBundle(_, n) => n
      case CancelShareBundle(_) => U64_MAX
    }

    /** What a key is once the command decides it. */
    function Decision(): Replacement {
      if NewOrder? then Valid(order.sequence, order.id) else Cancelled(Sequence())
    }
  }

  datatype Replacement = Valid(sequence: Sequence, id: OrderId) | Cancelled(sequence: Sequence)

  /** The store of live orders and the decision for each key seen. */
  datatype State = State(orders: map<OrderId, Order>, decisions: map<Key, Replacement>)

  // ---------------------------------------------------------------------------
  // One command

  /** A command is ignored when its key was decided with the same or a higher number. */
  predicate Accepted(st: State, c: Command) {
    c.Key().Some? && c.Key().value in st.decisions ==> c.Sequence() > st.decisions[c.Key().value].sequence
  }

  /** The store without the order that was decided for the key. */
  function Removed(st: State, key: Option<Key>): map<OrderId, Order> {
    if key.Some? && key.value in st.decisions && st.decisions[key.value].Valid?
    then st.orders - {st.decisions[key.value].id}
    else st.orders
  }

  function Apply(st: State, c: Command): State {
    if !Accepted(st, c) then st
    else
      var orders := Removed(st, c.Key());
      State(
        if c.NewOrder? then orders[c.order.id := c.order] else orders,
        if c.Key().Some? then st.decisions[c.Key().value := c.Decision()] else st.decisions)
  }

  /** All commands, first to last. */
  function Replay(commands: seq<Command>): State {
    if commands == [] then State(map[], map[])
    else Apply(Replay(commands[..|commands| - 1]), commands[|commands| - 1])
  }

  class OrderReplacementManager {
    var orders: map<OrderId, Order>
    var decisions: map<Key, Replacement>

    ghost function Now(): State
      reads this
    {
      State(orders, decisions)
    }

    constructor ()
      ensures Now() == Replay([])
    {
      orders := map[];
      decisions := map[];
    }

    method InsertOrder(order: Order)
      modifies this
      ensures Now() == Apply(old(Now()), NewOrder(order))
    {
      if order.key.Some? {
        var key := order.key.value;
        if key in decisions {
          if order.sequence <= decisions[key].sequence {
            return;
          }
          RemoveDecided(key);
        }
        decisions := decisions[key := Valid(order.sequence, order.id)];
      }
      orders := orders[order.id := order];
    }

    method RemoveBundle(bundle: nat, sequence: Sequence)
      modifies this
      ensures Now() == Apply(old(Now()), CancelBundle(bundle, sequence))
    {
      Cancel(BundleKey(bundle), sequence);
    }

    method RemoveShareBundle(bundle: nat)
      modifies this
      ensures Now() == Apply(old(Now()), CancelShareBundle(bundle))
    {
      Cancel(ShareBundleKey(bundle), U64_MAX);
    }

    method Cancel(key: Key, sequence: Sequence)
      modifies this
      ensures key in old(decisions) && sequence <= old(decisions)[key].sequence ==> Now() == old(Now())
      ensures key !in old(decisions) || sequence > old(decisions)[key].sequence ==>
                Now() == State(Removed(old(Now()), Some(key)), old(decisions)[key := Cancelled(sequence)])
    {
      if key in decisions {
        if sequence <= decisions[key].sequence {
          return;
        }
        RemoveDecided(key);
      }
      decisions := decisions[key := Cancelled(sequence)];
    }

    method RemoveDecided(key: Key)
      requires key in decisions
      modifies this`orders
      ensures orders == Removed(old(Now()), Some(key))
    {
      match decisions[key]
      case Valid(_, id) => orders := orders - {id};
      case Cancelled(_) =>
    }
  }

  // ---------------------------------------------------------------------------
  // At most one live order for each key

  /** A live order with a key is the one decided for the key. */
  ghost predicate Consistent(st: State) {
    forall id :: id in st.orders ==>
      && st.orders[id].id == id
      && (st.orders[id].key.Some? ==>
            st.orders[id].key.value in st.decisions
            && st.decisions[st.orders[id].key.value] == Valid(st.orders[id].sequence, id))
  }

  lemma ApplyConsistent(st: State, c: Command)
    requires Consistent(st)
    ensures Consistent(Apply(st, c))
  {
  }

  /** After any commands at all, live orders are decided by their key; so no two of them share one. */
  lemma {:induction false} ReplayConsistent(commands: seq<Command>)
    ensures Consistent(Replay(commands))
    ensures forall a, b :: a in Replay(commands).orders && b in Replay(commands).orders && a != b
                           && Replay(commands).orders[a].key.Some? ==>
                             Replay(commands).orders[a].key != Replay(commands).orders[b].key
  {
    if commands != [] {
      ReplayConsistent(commands[..|commands| - 1]);
      ApplyConsistent(Replay(commands[..|commands| - 1]), commands[|commands| - 1]);
    }
  }

  // ---------------------------------------------------------------------------
  // Which command decides a key

  /** Command `i` has the highest number for its key, and no earlier one equals it. */
  ghost predicate Decides(commands: seq<Command>, i: nat, key: Key) {
    && i < |commands|
    && commands[i].Key() == Some(key)
    && (forall j :: 0 <= j < |commands| && commands[j].Key() == Some(key) ==>
          commands[j].Sequence() <= commands[i].Sequence())
    && (forall j :: 0 <= j < i && commands[j].Key() == Some(key) ==> commands[j].Sequence() < commands[i].Sequence())
  }

  ghost predicate Mentions(commands: seq<Command>, key: Key) {
    exists i :: 0 <= i < |commands| && commands[i].Key() == Some(key)
  }

  lemma MentionsLast(commands: seq<Command>, key: Key)
    requires commands != []
    ensures Mentions(commands, key) <==>
              Mentions(commands[..|commands| - 1], key) || commands[|commands| - 1].Key() == Some(key)
  {
  }

  /** The decision for a key is that of its first command with the highest number. */
  lemma {:induction false} DecisionIsLatest(commands: seq<Command>, key: Key) returns (i: nat)
    ensures key in Replay(commands).decisions <==> Mentions(commands, key)
    ensures Mentions(commands, key) ==>
              Decides(commands, i, key) && Replay(commands).decisions[key] == commands[i].Decision()
  {
    i := 0;
    if commands != [] {
      var n := |commands| - 1;
      var rest, c := commands[..n], commands[n];
      i := DecisionIsLatest(rest, key);
      MentionsLast(commands, key);
      if c.Key() == Some(key) && Accepted(Replay(rest), c) {
        i := n;
        forall j | 0 <= j < n && commands[j].Key() == Some(key)
          ensures commands[j].Sequence() < c.Sequence()
        {
          assert rest[j].Key() == Some(key);
        }
      }
    }
  }

  // ---------------------------------------------------------------------------
  // The order decided for a key is live

  /** Every key decided by an order has that order live. */
  ghost predicate Backed(st: State) {
    forall k :: k in st.decisions && st.decisions[k].Valid? ==>
      && st.decisions[k].id in st.orders
      && st.orders[st.decisions[k].id].key == Some(k)
      && st.orders[st.decisions[k].id].sequence == st.decisions[k].sequence
  }

  /** The command stores an order under the id of a live order with another key. */
  predicate Overwrites(st: State, c: Command) {
    && c.NewOrder? && Accepted(st, c)
    && c.order.id in st.orders && st.orders[c.order.id].key.Some? && st.orders[c.order.id].key != c.order.key
  }

  /** A command keeps decided orders live exactly when it does not overwrite one. */
  lemma BackedUnlessOverwritten(st: State, c: Command)
    requires Consistent(st) && Backed(st)
    ensures Backed(Apply(st, c)) <==> !Overwrites(st, c)
  {
  }

  /** Decided orders are live throughout a run exactly when no command of it overwrites one. */
  lemma BackedThroughoutRun(commands: seq<Command>)
    ensures (forall n :: 0 <= n <= |commands| ==> Backed(Replay(commands[..n])))
       <==> (forall n :: 0 <= n < |commands| ==> !Overwrites(Replay(commands[..n]), commands[n]))
  {
    hide Backed, Overwrites, Replay;
    if forall n :: 0 <= n < |commands| ==> !Overwrites(Replay(commands[..n]), commands[n]) {
      forall n | 0 <= n <= |commands|
        ensures Backed(Replay(commands[..n]))
      {
        BackedSoFar(commands, n);
      }
    } else {
      var n :| 0 <= n < |commands| && Overwrites(Replay(commands[..n]), commands[n]);
      if Backed(Replay(commands[..n])) {
        BackedStep(commands, n);
        assert !Backed(Replay(commands[..n + 1]));
      }
    }
  }

  lemma BackedStep(commands: seq<Command>, n: nat)
    requires n < |commands| && Backed(Replay(commands[..n]))
    ensures Backed(Replay(commands[..n + 1])) <==> !Overwrites(Replay(commands[..n]), commands[n])
  {
    hide Backed, Overwrites;
    assert commands[..n + 1][..n] == commands[..n];
    ReplayConsistent(commands[..n]);
    BackedUnlessOverwritten(Replay(commands[..n]), commands[n]);
  }

  lemma {:induction false} BackedSoFar(commands: seq<Command>, n: nat)
    requires n <= |commands| && forall i :: 0 <= i < |commands| ==> !Overwrites(Replay(commands[..i]), commands[i])
    ensures Backed(Replay(commands[..n]))
  {
    if n > 0 {
      BackedSoFar(commands, n - 1);
      BackedStep(commands, n - 1);
    }
  }

  lemma ReplayAppend(commands: seq<Command>, c: Command)
    ensures Replay(commands + [c]) == Apply(Replay(commands), c)
  {
  }

  /** Two keys whose orders have one id: cancelling the first key takes the order of the second away. */
  lemma SharedIdLosesOrder(first: Order, second: Order)
    requires first.key == Some(BundleKey(1)) && second.key == Some(BundleKey(2)) && first.id == second.id
    requires first.sequence < U64_MAX
    ensures var end := Replay([NewOrder(first), NewOrder(second), CancelBundle(1, U64_MAX)]);
            && BundleKey(2) in end.decisions && end.decisions[BundleKey(2)] == Valid(second.sequence, second.id)
            && end.orders == map[]
  {
    ReplayAppend([], NewOrder(first));
    ReplayAppend([NewOrder(first)], NewOrder(second));
    ReplayAppend([NewOrder(first), NewOrder(second)], CancelBundle(1, U64_MAX));
    assert [] + [NewOrder(first)] == [NewOrder(first)];
    assert [NewOrder(first)] + [NewOrder(second)] == [NewOrder(first), NewOrder(second)];
    assert [NewOrder(first), NewOrder(second)] + [CancelBundle(1, U64_MAX)]
        == [NewOrder(first), NewOrder(second), CancelBundle(1, U64_MAX)];
  }

  /** Live orders come from the commands. */
  lemma {:induction false} LiveOrdersArrived(commands: seq<Command>, id: OrderId)
    requires id in Replay(commands).orders
    ensures NewOrder(Replay(commands).orders[id]) in commands
  {
    var n := |commands| - 1;
    if id in Replay(commands[..n]).orders {
      LiveOrdersArrived(commands[..n], id);
    }
  }

  // ---------------------------------------------------------------------------
  // Which orders are live

  /** The orders with this id have one key. */
  ghost predicate OneKey(commands: seq<Command>, id: OrderId) {
    forall x, y :: x in commands && y in commands && x.NewOrder? && y.NewOrder? && x.order.id == y.order.id == id ==>
      x.order.key == y.order.key
  }

  /** A decided id is that of an order with the key. */
  lemma DecidedArrived(commands: seq<Command>, key: Key) returns (x: Command)
    requires key in Replay(commands).decisions && Replay(commands).decisions[key].Valid?
    ensures x in commands && x.NewOrder? && x.order.key == Some(key) && x.order.id == Replay(commands).decisions[key].id
  {
    var i := DecisionIsLatest(commands, key);
    x := commands[i];
  }

  /** A command about another key leaves an id alone that belongs to one key. */
  lemma OtherKeyLeaves(commands: seq<Command>, c: Command, x: Command)
    requires x in commands && x.NewOrder? && OneKey(commands + [c], x.order.id) && c.Key() != x.order.key
    ensures x.order.id in Replay(commands).orders <==> x.order.id in Apply(Replay(commands), c).orders
    ensures x.order.id in Replay(commands).orders ==>
              Apply(Replay(commands), c).orders[x.order.id] == Replay(commands).orders[x.order.id]
  {
    assert c in commands + [c] && forall y :: y in commands ==> y in commands + [c];
    var st := Replay(commands);
    if c.Key().Some? && c.Key().value in st.decisions && st.decisions[c.Key().value].Valid? {
      var y := DecidedArrived(commands, c.Key().value);
    }
  }

  ghost predicate Unkeyed(commands: seq<Command>, id: OrderId) {
    exists c :: c in commands && c.NewOrder? && c.order.id == id && c.order.key.None?
  }

  /** Orders without a key stay, unless one with a key has their id. */
  lemma {:induction false} UnkeyedStay(commands: seq<Command>, id: OrderId)
    requires OneKey(commands, id) && Unkeyed(commands, id)
    ensures id in Replay(commands).orders && Replay(commands).orders[id].key.None?
  {
    var n := |commands| - 1;
    var rest, c := commands[..n], commands[n];
    assert commands == rest + [c];
    if Unkeyed(rest, id) {
      UnkeyedStay(rest, id);
      var x :| x in rest && x.NewOrder? && x.order.id == id && x.order.key.None?;
      if c.Key().Some? {
        OtherKeyLeaves(rest, c, x);
      }
    }
  }

  /** The order that decides a key is live as it arrived, unless one with another key has its id. */
  lemma {:induction false} DecidingOrderLive(commands: seq<Command>, i: nat, key: Key)
    requires Decides(commands, i, key) && commands[i].NewOrder? && OneKey(commands, commands[i].order.id)
    ensures commands[i].order.id in Replay(commands).orders
    ensures Replay(commands).orders[commands[i].order.id] == commands[i].order
  {
    var n := |commands| - 1;
    var rest, c := commands[..n], commands[n];
    assert commands == rest + [c];
    var d := DecisionIsLatest(rest, key);
    if i < n {
      assert rest[i] == commands[i];
      assert Decides(rest, i, key);
      DecidingOrderLive(rest, i, key);
      if c.Key() == Some(key) {
        assert !Accepted(Replay(rest), c);
      } else {
        OtherKeyLeaves(rest, c, commands[i]);
      }
    } else {
      assert Accepted(Replay(rest), c);
    }
  }

  /** An id is live only when it is that of an unkeyed order or decided for a key, and then it is live unless orders
      of different keys have it. */
  lemma LiveIds(commands: seq<Command>, id: OrderId)
    ensures id in Replay(commands).orders ==> Unkeyed(commands, id) || DecidedId(Replay(commands), id)
    ensures OneKey(commands, id) && (Unkeyed(commands, id) || DecidedId(Replay(commands), id)) ==>
              id in Replay(commands).orders
  {
    ReplayConsistent(commands);
    if id in Replay(commands).orders {
      LiveOrdersArrived(commands, id);
    }
    if OneKey(commands, id) {
      if Unkeyed(commands, id) {
        UnkeyedStay(commands, id);
      }
      if DecidedId(Replay(commands), id) {
        var decisions := Replay(commands).decisions;
        var k :| k in decisions && decisions[k].Valid? && decisions[k].id == id;
        var i := DecisionIsLatest(commands, k);
        DecidingOrderLive(commands, i, k);
      }
    }
  }

  ghost predicate DecidedId(st: State, id: OrderId) {
    exists k :: k in st.decisions && st.decisions[k].Valid? && st.decisions[k].id == id
  }

  /** Orders whose ids have one key each never overwrite one another. */
  lemma ReplayBacked(commands: seq<Command>)
    requires forall id :: OneKey(commands, id)
    ensures Backed(Replay(commands))
  {
    forall n | 0 <= n < |commands|
      ensures !Overwrites(Replay(commands[..n]), commands[n])
    {
      var c, st := commands[n], Replay(commands[..n]);
      if c.NewOrder? && c.order.id in st.orders {
        LiveOrdersArrived(commands[..n], c.order.id);
        ReplayConsistent(commands[..n]);
        assert OneKey(commands, c.order.id);
      }
    }
    BackedThroughoutRun(commands);
    assert commands[..|commands|] == commands;
  }

  /** Nothing that arrived for the key of a live order has a higher number: no other order, no cancellation of a bundle,
      and no cancellation of a share bundle unless the order has the highest number there is. */
  lemma LiveIsLatest(commands: seq<Command>, id: OrderId)
    requires id in Replay(commands).orders && Replay(commands).orders[id].key.Some?
    ensures var live := Replay(commands).orders[id];
            && (forall o: Order :: NewOrder(o) in commands && o.key == live.key ==> o.sequence <= live.sequence)
            && (forall b: nat, n: Sequence :: CancelBundle(b, n) in commands && live.key == Some(BundleKey(b)) ==>
                  n <= live.sequence)
            && (forall b: nat :: CancelShareBundle(b) in commands && live.key == Some(ShareBundleKey(b)) ==>
                  live.sequence == 0xFFFF_FFFF_FFFF_FFFF)
  {
    ReplayConsistent(commands);
    var live := Replay(commands).orders[id];
    var i := DecisionIsLatest(commands, live.key.value);
    forall x | x in commands && x.Key() == live.key
      ensures x.Sequence() <= live.sequence
    {
      var j :| 0 <= j < |commands| && commands[j] == x;
    }
  }

  // An order is live until a later command takes its id.

  /** Command `i`, when it arrives, stores an order under the id. */
  ghost predicate Puts(commands: seq<Command>, i: nat, id: OrderId)
    requires i < |commands|
  {
    commands[i].NewOrder? && commands[i].order.id == id && Accepted(Replay(commands[..i]), commands[i])
  }

  /** Command `i`, when it arrives, supersedes a decision for the id. */
  ghost predicate Takes(commands: seq<Command>, i: nat, id: OrderId)
    requires i < |commands|
  {
    var st, key := Replay(commands[..i]), commands[i].Key();
    && Accepted(st, commands[i]) && key.Some? && key.value in st.decisions
    && st.decisions[key.value].Valid? && st.decisions[key.value].id == id
  }

  /** Command `i` stores the order, and no later one stores another under its id or supersedes a decision for it. */
  ghost predicate Lasts(commands: seq<Command>, i: nat, order: Order) {
    && i < |commands| && Puts(commands, i, order.id) && commands[i].order == order
    && forall j :: i < j < |commands| ==> !Puts(commands, j, order.id) && !Takes(commands, j, order.id)
  }

  /** The live orders, after any commands at all. */
  lemma {:induction false} LiveExactly(commands: seq<Command>, order: Order)
    ensures order.id in Replay(commands).orders && Replay(commands).orders[order.id] == order
       <==> exists i :: Lasts(commands, i, order)
  {
    if commands != [] {
      var n := |commands| - 1;
      var rest := commands[..n];
      LiveExactly(rest, order);
      EarlierAlike(commands, order.id);
      if Puts(commands, n, order.id) {
        assert Lasts(commands, n, order) <==> commands[n].order == order;
      } else if Takes(commands, n, order.id) {
        assert forall i :: !Lasts(commands, i, order);
      } else {
        assert forall i :: Lasts(commands, i, order) <==> Lasts(rest, i, order);
      }
    }
  }

  lemma EarlierAlike(commands: seq<Command>, id: OrderId)
    requires commands != []
    ensures var rest := commands[..|commands| - 1];
            forall i :: 0 <= i < |rest| ==>
              (Puts(commands, i, id) <==> Puts(rest, i, id)) && (Takes(commands, i, id) <==> Takes(rest, i, id))
  {
    var rest := commands[..|commands| - 1];
    forall i | 0 <= i < |rest|
      ensures commands[..i] == rest[..i]
    {
    }
  }

  // ---------------------------------------------------------------------------
  // The sequence of arrival does not matter

  /** A command with the highest number of its key. */
  ghost predicate Top(commands: seq<Command>, x: Command) {
    x in commands && x.Key().Some? && forall y :: y in commands && y.Key() == x.Key() ==> y.Sequence() <= x.Sequence()
  }

  /** No two different commands share the highest number of a key. */
  ghost predicate NoTies(commands: seq<Command>) {
    forall x, y :: Top(commands, x) && Top(commands, y) && x.Key() == y.Key() ==> x == y
  }

  ghost predicate IsUnkeyed(commands: seq<Command>, x: Command) {
    x in commands && x.NewOrder? && x.order.key.None?
  }

  lemma DecidesIsTop(commands: seq<Command>, i: nat, key: Key)
    requires Decides(commands, i, key)
    ensures Top(commands, commands[i])
  {
  }

  lemma SameDecider(a: seq<Command>, b: seq<Command>, key: Key) returns (i: nat, j: nat)
    requires NoTies(a) && Mentions(a, key) && forall x :: x in a <==> x in b
    ensures Decides(a, i, key) && Decides(b, j, key) && a[i] == b[j]
    ensures key in Replay(a).decisions && key in Replay(b).decisions
    ensures Replay(a).decisions[key] == Replay(b).decisions[key] == a[i].Decision()
  {
    i := DecisionIsLatest(a, key);
    assert a[i] in b;
    assert Mentions(b, key);
    j := DecisionIsLatest(b, key);
    DecidesIsTop(a, i, key);
    DecidesIsTop(b, j, key);
    assert Top(a, b[j]);
  }

  lemma SameMentions(a: seq<Command>, b: seq<Command>, key: Key)
    requires (forall x :: x in a <==> x in b) && Mentions(a, key)
    ensures Mentions(b, key)
  {
    var i :| 0 <= i < |a| && a[i].Key() == Some(key);
    assert a[i] in b;
  }

  lemma SameDecisions(a: seq<Command>, b: seq<Command>)
    requires NoTies(a) && forall x :: x in a <==> x in b
    ensures Replay(a).decisions == Replay(b).decisions
  {
    forall key: Key
      ensures key in Replay(a).decisions <==> key in Replay(b).decisions
      ensures key in Replay(a).decisions ==> Replay(a).decisions[key] == Replay(b).decisions[key]
    {
      var _ := DecisionIsLatest(a, key);
      var _ := DecisionIsLatest(b, key);
      if Mentions(b, key) {
        SameMentions(b, a, key);
      }
      if Mentions(a, key) {
        var _, _ := SameDecider(a, b, key);
      }
    }
  }

  /** A command that decides its key, or an order that no key decides over. */
  ghost predicate Final(commands: seq<Command>, x: Command) {
    Top(commands, x) || IsUnkeyed(commands, x)
  }

  /** Whatever arrives, no order of another key has its id, and no other order is as good. */
  ghost predicate Undisputed(commands: seq<Command>, y: Command)
    requires y.NewOrder?
  {
    && (forall x :: x in commands && x.NewOrder? && x.order.id == y.order.id ==> x.order.key == y.order.key)
    && (forall x :: Final(commands, x) && x.Key() == y.Key() && (x.Key().None? ==> x.order.id == y.order.id) ==> x == y)
  }

  /** A final order that nothing disputes is live. */
  lemma UndisputedLive(commands: seq<Command>, y: Command)
    requires y.NewOrder? && Final(commands, y) && Undisputed(commands, y)
    ensures y.order.id in Replay(commands).orders && Replay(commands).orders[y.order.id] == y.order
  {
    var id := y.order.id;
    if y.order.key.None? {
      UnkeyedStay(commands, id);
      ReplayConsistent(commands);
      LiveOrdersArrived(commands, id);
      assert IsUnkeyed(commands, NewOrder(Replay(commands).orders[id]));
    } else {
      var key := y.order.key.value;
      var j :| 0 <= j < |commands| && commands[j] == y;
      assert Mentions(commands, key);
      var i := DecisionIsLatest(commands, key);
      DecidesIsTop(commands, i, key);
      DecidingOrderLive(commands, i, key);
    }
  }

  /** A live order is final, or another of its kind is. */
  lemma LiveIsFinal(commands: seq<Command>, id: OrderId)
    requires id in Replay(commands).orders
    ensures Final(commands, NewOrder(Replay(commands).orders[id])) && Replay(commands).orders[id].id == id
  {
    var o := Replay(commands).orders[id];
    ReplayConsistent(commands);
    LiveOrdersArrived(commands, id);
    if o.key.Some? {
      var i := DecisionIsLatest(commands, o.key.value);
      DecidesIsTop(commands, i, o.key.value);
    }
  }

  /** Every final order is undisputed. */
  ghost predicate NoDisputes(commands: seq<Command>) {
    forall y :: Final(commands, y) && y.NewOrder? ==> Undisputed(commands, y)
  }

  /** Of two commands that share the highest number of a key, one is an order. */
  lemma NoDisputesNoTies(commands: seq<Command>)
    requires NoDisputes(commands)
    ensures NoTies(commands)
  {
    forall x, y | Top(commands, x) && Top(commands, y) && x.Key() == y.Key()
      ensures x == y
    {
      assert Final(commands, x) && Final(commands, y);
    }
  }

  lemma SameFinals(a: seq<Command>, b: seq<Command>, y: Command)
    requires forall x :: x in a <==> x in b
    ensures Final(a, y) <==> Final(b, y)
    ensures y.NewOrder? ==> (Undisputed(a, y) <==> Undisputed(b, y))
  {
    assert forall x :: Top(a, x) <==> Top(b, x);
    assert forall x :: Final(a, x) <==> Final(b, x);
  }

  lemma SameLiveOrder(a: seq<Command>, b: seq<Command>, id: OrderId)
    requires NoDisputes(a) && (forall x :: x in a <==> x in b) && id in Replay(a).orders
    ensures id in Replay(b).orders && Replay(b).orders[id] == Replay(a).orders[id]
  {
    LiveIsFinal(a, id);
    var y := NewOrder(Replay(a).orders[id]);
    SameFinals(a, b, y);
    UndisputedLive(b, y);
  }

  /** Notifications that arrive in another sequence give the same decisions and the same live orders. */
  lemma ArrivalSequenceIrrelevant(a: seq<Command>, b: seq<Command>)
    requires multiset(a) == multiset(b) && NoDisputes(a)
    ensures Replay(a) == Replay(b)
  {
    SameElements(a, b);
    NoDisputesNoTies(a);
    SameDecisions(a, b);
    forall y: Command | y.NewOrder? && Final(b, y)
      ensures Undisputed(b, y)
    {
      SameFinals(a, b, y);
    }
    forall id: OrderId
      ensures id in Replay(a).orders <==> id in Replay(b).orders
      ensures id in Replay(a).orders ==> Replay(a).orders[id] == Replay(b).orders[id]
    {
      if id in Replay(a).orders {
        SameLiveOrder(a, b, id);
      }
      if id in Replay(b).orders {
        SameLiveOrder(b, a, id);
      }
    }
    assert Replay(a).orders == Replay(b).orders;
  }

  lemma SameElements(a: seq<Command>, b: seq<Command>)
    requires multiset(a) == multiset(b)
    ensures forall x :: x in a <==> x in b
  {
    forall x: Command
      ensures x in a <==> x in b
    {
      assert x in a <==> x in multiset(a);
      assert x in b <==> x in multiset(b);
    }
  }

  /** The same commands with `x` first. */
  lemma MovedFirst(a: seq<Command>, x: Command) returns (b: seq<Command>)
    requires x in a
    ensures b != [] && b[0] == x && multiset(b) == multiset(a)
  {
    var i :| 0 <= i < |a| && a[i] == x;
    assert a == a[..i] + [x] + a[i + 1..];
    b := [x] + (a[..i] + a[i + 1..]);
  }

  /** The same commands with `x` last. */
  lemma MovedLast(a: seq<Command>, x: Command) returns (b: seq<Command>)
    requires x in a
    ensures b != [] && b[|b| - 1] == x && multiset(b) == multiset(a)
  {
    var i :| 0 <= i < |a| && a[i] == x;
    assert a == a[..i] + [x] + a[i + 1..];
    b := (a[..i] + a[i + 1..]) + [x];
  }

  // Sequences that show a difference

  function Filter(a: seq<Command>, keep: Command -> bool): seq<Command> {
    if a == [] then []
    else Filter(a[..|a| - 1], keep) + if keep(a[|a| - 1]) then [a[|a| - 1]] else []
  }

  lemma {:induction false} FilterIn(a: seq<Command>, keep: Command -> bool)
    ensures forall x :: x in Filter(a, keep) <==> x in a && keep(x)
  {
    if a != [] {
      FilterIn(a[..|a| - 1], keep);
      assert a == a[..|a| - 1] + [a[|a| - 1]];
    }
  }

  lemma {:induction false} FilterCount(a: seq<Command>, keep: Command -> bool, x: Command)
    ensures multiset(Filter(a, keep))[x] == if keep(x) then multiset(a)[x] else 0
  {
    if a != [] {
      FilterCount(a[..|a| - 1], keep, x);
      assert a == a[..|a| - 1] + [a[|a| - 1]];
    }
  }

  lemma FilterSplit(a: seq<Command>, keep: Command -> bool, drop: Command -> bool)
    requires forall c :: keep(c) <==> !drop(c)
    ensures multiset(Filter(a, keep)) + multiset(Filter(a, drop)) == multiset(a)
  {
    hide Filter;
    forall x
      ensures multiset(Filter(a, keep))[x] + multiset(Filter(a, drop))[x] == multiset(a)[x]
    {
      FilterCount(a, keep, x);
      FilterCount(a, drop, x);
    }
  }

  /** A command in front of all others that `own` holds of, and behind the rest. */
  lemma Arranged(a: seq<Command>, x: Command, own: Command -> bool) returns (head: seq<Command>, tail: seq<Command>)
    requires x in a && own(x)
    ensures multiset(head + [x] + tail) == multiset(a)
    ensures forall c :: c in head ==> c in a && !own(c)
    ensures forall c :: c in tail ==> c in a && own(c)
  {
    var others := (c: Command) => !own(c);
    FilterSplit(a, others, own);
    FilterIn(a, others);
    FilterIn(a, own);
    hide Filter;
    head := Filter(a, others);
    var b := MovedFirst(Filter(a, own), x);
    tail := b[1..];
    SameElements(b, Filter(a, own));
    Joined(head, b);
  }

  lemma Joined(head: seq<Command>, b: seq<Command>)
    requires b != []
    ensures multiset(head + [b[0]] + b[1..]) == multiset(head) + multiset(b)
    ensures forall c :: c in b[1..] ==> c in b
  {
    assert b == [b[0]] + b[1..] && head + [b[0]] + b[1..] == head + b;
    assert multiset(head + b) == multiset(head) + multiset(b);
  }

  /** Commands that come too late change nothing. */
  lemma {:induction false} TooLate(commands: seq<Command>, tail: seq<Command>, key: Key)
    requires key in Replay(commands).decisions
    requires forall c :: c in tail ==> c.Key() == Some(key) && c.Sequence() <= Replay(commands).decisions[key].sequence
    ensures Replay(commands + tail) == Replay(commands)
  {
    if tail == [] {
      assert commands + tail == commands;
    } else {
      var n := |tail| - 1;
      TooLate(commands, tail[..n], key);
      ReplayAppend(commands + tail[..n], tail[n]);
      assert commands + tail == commands + tail[..n] + [tail[n]];
    }
  }

  /** A final command can come last: then its decision holds, and its order is live. */
  lemma FinalLast(a: seq<Command>, y: Command) returns (p: seq<Command>)
    requires Final(a, y)
    ensures multiset(p) == multiset(a)
    ensures y.Key().Some? ==> y.Key().value in Replay(p).decisions && Replay(p).decisions[y.Key().value] == y.Decision()
    ensures y.NewOrder? ==> y.order.id in Replay(p).orders && Replay(p).orders[y.order.id] == y.order
  {
    if y.Key().None? {
      p := MovedLast(a, y);
    } else {
      var key := y.Key().value;
      var own := (c: Command) => c.Key() == Some(key) && c.Sequence() >= y.Sequence();
      var head, tail := Arranged(a, y, own);
      p := head + [y] + tail;
      var i := DecisionIsLatest(head, key);
      assert key in Replay(head).decisions ==> head[i] in head;
      ReplayAppend(head, y);
      TooLate(head + [y], tail, key);
    }
  }

  /** While the commands are about one key, an id is live only as its decision. */
  lemma {:induction false} OwnTail(commands: seq<Command>, tail: seq<Command>, key: Key, id: OrderId)
    requires Replay(commands).decisions.Keys >= {key} && Replay(commands).decisions[key].Valid?
    requires Replay(commands).decisions[key].id == id
    requires forall c :: c in tail ==> c.Key() == Some(key)
    ensures key in Replay(commands + tail).decisions
    ensures var d := Replay(commands + tail).decisions[key];
            id in Replay(commands + tail).orders ==> d.Valid? && d.id == id
  {
    if tail == [] {
      assert commands + tail == commands;
    } else {
      var n := |tail| - 1;
      OwnTail(commands, tail[..n], key, id);
      ReplayAppend(commands + tail[..n], tail[n]);
      assert commands + tail == commands + tail[..n] + [tail[n]];
    }
  }

  /** An order whose key is decided otherwise can come when nothing else about its key has: then its id goes. */
  lemma SupersededLast(a: seq<Command>, x: Command) returns (p: seq<Command>)
    requires x in a && x.NewOrder? && x.order.key.Some?
    requires forall t :: Top(a, t) && t.Key() == x.Key() && t.NewOrder? ==> t.order.id != x.order.id
    ensures multiset(p) == multiset(a) && x.order.id !in Replay(p).orders
  {
    hide Top;
    var key := x.order.key.value;
    var own := (c: Command) => c.Key() == Some(key);
    var head, tail := Arranged(a, x, own);
    assert forall c :: c in head ==> c.Key() != Some(key);
    p := head + [x] + tail;
    NotDecided(head, key);
    ReplayAppend(head, x);
    OwnTail(head + [x], tail, key, x.order.id);
    var top := DecidedByTop(a, p, key);
  }

  lemma NotDecided(commands: seq<Command>, key: Key)
    requires forall c :: c in commands ==> c.Key() != Some(key)
    ensures key !in Replay(commands).decisions
  {
    var i := DecisionIsLatest(commands, key);
    if i < |commands| {
      assert commands[i] in commands;
    }
  }

  /** A key is decided by a command with its highest number. */
  lemma DecidedByTop(a: seq<Command>, p: seq<Command>, key: Key) returns (top: Command)
    requires multiset(p) == multiset(a) && key in Replay(p).decisions
    ensures Top(a, top) && top.Key() == Some(key) && Replay(p).decisions[key] == top.Decision()
  {
    SameElements(a, p);
    var i := DecisionIsLatest(p, key);
    DecidesIsTop(p, i, key);
    top := p[i];
  }

  /** When another order can take its place, some sequence of arrival leaves a final order out. */
  lemma DisputeShows(a: seq<Command>, y: Command) returns (p: seq<Command>)
    requires y.NewOrder? && Final(a, y) && !Undisputed(a, y)
    ensures multiset(p) == multiset(a)
    ensures !(y.order.id in Replay(p).orders && Replay(p).orders[y.order.id] == y.order)
  {
    if x :| Final(a, x) && x.Key() == y.Key() && (x.Key().None? ==> x.order.id == y.order.id) && x != y {
      p := FinalLast(a, x);
      TakenPlace(p, x, y);
    } else {
      var x :| x in a && x.NewOrder? && x.order.id == y.order.id && x.order.key != y.order.key;
      if t :| Final(a, t) && t.NewOrder? && t.order.id == y.order.id && t.order.key != y.order.key {
        p := FinalLast(a, t);
      } else {
        assert !Final(a, x);
        p := SupersededLast(a, x);
      }
    }
  }

  lemma TakenPlace(p: seq<Command>, x: Command, y: Command)
    requires y.NewOrder? && x != y && x.Key() == y.Key() && (x.Key().None? ==> x.order.id == y.order.id)
    requires x.Key().Some? ==>
               x.Key().value in Replay(p).decisions && Replay(p).decisions[x.Key().value] == x.Decision()
    requires x.NewOrder? ==> x.order.id in Replay(p).orders && Replay(p).orders[x.order.id] == x.order
    ensures !(y.order.id in Replay(p).orders && Replay(p).orders[y.order.id] == y.order)
  {
    ReplayConsistent(p);
  }

  /** A final order is live whatever the sequence of arrival exactly when nothing disputes it. */
  lemma LiveInAnySequence(a: seq<Command>, y: Command)
    requires y.NewOrder? && Final(a, y)
    ensures (forall b :: multiset(b) == multiset(a) ==>
                           y.order.id in Replay(b).orders && Replay(b).orders[y.order.id] == y.order)
       <==> Undisputed(a, y)
  {
    if Undisputed(a, y) {
      forall b | multiset(b) == multiset(a)
        ensures y.order.id in Replay(b).orders && Replay(b).orders[y.order.id] == y.order
      {
        SameElements(a, b);
        SameFinals(a, b, y);
        UndisputedLive(b, y);
      }
    } else {
      var p := DisputeShows(a, y);
    }
  }

  lemma TieShows(a: seq<Command>, x: Command, y: Command) returns (p: seq<Command>, q: seq<Command>)
    requires Top(a, x) && Top(a, y) && x.Key() == y.Key() && x != y
    ensures multiset(p) == multiset(q) == multiset(a) && Replay(p) != Replay(q)
  {
    p := FinalLast(a, x);
    q := FinalLast(a, y);
    if Replay(p).decisions == Replay(q).decisions {
      assert x.Decision() == y.Decision();
    }
  }

  ghost predicate AnySequence(a: seq<Command>) {
    forall b :: multiset(b) == multiset(a) ==> Replay(b) == Replay(a)
  }

  /** The sequence of arrival is irrelevant exactly when nothing disputes a final order. */
  lemma ArrivalSequenceExact(a: seq<Command>)
    ensures AnySequence(a) <==> NoDisputes(a)
  {
    if NoDisputes(a) {
      forall b | multiset(b) == multiset(a)
        ensures Replay(b) == Replay(a)
      {
        ArrivalSequenceIrrelevant(a, b);
      }
    } else {
      var y :| Final(a, y) && y.NewOrder? && !Undisputed(a, y);
      var p := DisputeShows(a, y);
      var q := FinalLast(a, y);
      assert !AnySequence(a);
    }
  }
}
