/**
 The order aggregate and its repository (exampleapp/ddd/order/domain/model.go and
 exampleapp/ddd/order/repository/repository.go). Amounts are reals and times integers; an order's items
 are checked when it is placed and are not rebuilt from events.
 */
module Orders {
  import opened Wrappers
  import opened Aggregates
  import ClientRuns
  import MemoryEventStore
  import SnapshotRepository

  /** The Go zero value of a status is the empty string, which a fresh order for replay has. */
  datatype OrderStatus = Unset | Pending | Paid | Shipped | Cancelled

  datatype OrderState = OrderState(
    userID: string, status: OrderStatus, totalAmount: real,
    createdAt: int, paidAt: int, shippedAt: int, cancelledAt: int, cancelReason: string)

  datatype OrderEvent =
    | OrderPlaced(aggregateID: string, occurredAt: int, userID: string, total: real)
    | PaymentConfirmed(aggregateID: string, occurredAt: int)
    | OrderShipped(aggregateID: string, occurredAt: int)
    | OrderCancelled(aggregateID: string, occurredAt: int, reason: string)
    | Unhandled(aggregateID: string, occurredAt: int)

  datatype Item = Item(productID: string, price: real, quantity: int)

  const BLANK := OrderState("", Unset, 0.0, 0, 0, 0, 0, "")

  /** What When makes of an order's fields; None is the error of an event that it does not handle. */
  function StateAfter(o: OrderState, e: OrderEvent): Option<OrderState> {
    match e
    case OrderPlaced(_, at, userID, total) =>
      Some(o.(userID := userID, totalAmount := total, status := Pending, createdAt := at))
    case PaymentConfirmed(_, at) => Some(o.(status := Paid, paidAt := at))
    case OrderShipped(_, at) => Some(o.(status := Shipped, shippedAt := at))
    case OrderCancelled(_, at, reason) => Some(o.(status := Cancelled, cancelledAt := at, cancelReason := reason))
    case Unhandled(_, _) => None
  }

  /** The guards of ConfirmPayment, Ship and Cancel. No command of an existing order places it. */
  predicate May(o: OrderState, e: OrderEvent) {
    match e
    case OrderPlaced(_, _, _, _) => false
    case PaymentConfirmed(_, _) => o.status == Pending
    case OrderShipped(_, _) => o.status == Paid
    case OrderCancelled(_, _, _) => o.status != Cancelled && o.status != Shipped
    case Unhandled(_, _) => true
  }

  function OrderDomain(): Domain<OrderState, OrderEvent> {
    Domain(
      (id: string) => BLANK,
      (o: OrderState, e: OrderEvent) => StateAfter(o, e),
      (e: OrderEvent) => e.aggregateID,
      (e: OrderEvent) => e.OrderPlaced?,
      (o: OrderState, e: OrderEvent) => May(o, e))
  }

  // ---------------------------------------------------------------- the life of an order

  /** Placed (Paid (Shipped | Cancelled)? | Cancelled)?, or nothing yet. */
  ghost predicate IsOrderLife(s: seq<OrderEvent>) {
    && |s| <= 3
    && (|s| > 0 ==> s[0].OrderPlaced?)
    && (|s| > 1 ==> s[1].PaymentConfirmed? || s[1].OrderCancelled?)
    && (|s| > 2 ==> s[1].PaymentConfirmed? && (s[2].OrderShipped? || s[2].OrderCancelled?))
  }

  /** The status after n events of a decided stream, which is what the next guard looks at. */
  lemma DecidedOrderIsALife(id: string, s: seq<OrderEvent>)
    requires ClientRuns.Decided(OrderDomain(), id, s)
    ensures IsOrderLife(s)
  {
    var d := OrderDomain();
    assert Replay(d, BLANK, s, 0) == Some(BLANK);
    if |s| > 0 {
      assert ClientRuns.DecidedAt(d, id, s, 0);
      Past(id, s, 0);
    }
    if |s| > 1 {
      assert ClientRuns.DecidedAt(d, id, s, 1);
      Past(id, s, 1);
    }
    if |s| > 2 {
      assert ClientRuns.DecidedAt(d, id, s, 2);
      Past(id, s, 2);
    }
    if |s| > 3 {
      assert ClientRuns.DecidedAt(d, id, s, 3);
      Past(id, s, 3);
    }
  }

  /** Every event of a decided stream is handled and moves the status. */
  lemma Past(id: string, s: seq<OrderEvent>, i: nat)
    requires ClientRuns.Decided(OrderDomain(), id, s) && i < |s|
    requires Replay(OrderDomain(), BLANK, s, i).Some?
    ensures Replay(OrderDomain(), BLANK, s, i + 1) == StateAfter(Replay(OrderDomain(), BLANK, s, i).value, s[i])
    ensures Replay(OrderDomain(), BLANK, s, i + 1).Some?
  {
    if Replay(OrderDomain(), BLANK, s, i + 1).None? {
      NoReplayPast(OrderDomain(), BLANK, s, i + 1, |s|);
    }
  }

  /** On the snapshotting repository, under any interleaving and any snapshot setting, stored orders live lawfully. */
  lemma SnapshottedOrdersAreLives<B>(
      z: SnapshotRepository.Serializer<OrderState, B>, actions: seq<ClientRuns.Action<OrderEvent>>, k: nat, id: string)
    requires k <= |actions| && SnapshotRepository.RoundTrips(z)
    ensures IsOrderLife(ClientRuns.Stream(ClientRuns.After(OrderDomain(), z, actions, k), id))
  {
    ClientRuns.StoredEventsAreDecided(OrderDomain(), z, actions, k, id);
    DecidedOrderIsALife(id, ClientRuns.Stream(ClientRuns.After(OrderDomain(), z, actions, k), id));
  }

  /** Conversely the guards allow every lawful life to the full. */
  lemma LifeIsDecided(id: string, s: seq<OrderEvent>)
    requires IsOrderLife(s) && forall i | 0 <= i < |s| :: s[i].aggregateID == id
    ensures ClientRuns.Decided(OrderDomain(), id, s)
  {
    var d := OrderDomain();
    assert Replay(d, BLANK, s, 0) == Some(BLANK);
    if |s| > 0 { assert Replay(d, BLANK, s, 1).Some? && Replay(d, BLANK, s, 1).value.status == Pending; }
    if |s| > 1 {
      var second := Replay(d, BLANK, s, 2);
      assert second.Some? && (s[1].PaymentConfirmed? ==> second.value.status == Paid);
    }
    if |s| > 2 { assert Replay(d, BLANK, s, 3).Some?; }
    forall i | 0 <= i < |s| ensures ClientRuns.DecidedAt(d, id, s, i) {
      assert i == 0 || i == 1 || i == 2;
    }
  }

  // ---------------------------------------------------------------- the order repository, on values

  datatype SavedOrder = SavedOrder(
      store: MemoryEventStore.Events<OrderEvent>, order: Agg<OrderState, OrderEvent>, accepted: bool)

  function SaveOrder(store: MemoryEventStore.Events<OrderEvent>, o: Agg<OrderState, OrderEvent>): SavedOrder {
    if o.uncommitted == [] then SavedOrder(store, o, true)
    else if MemoryEventStore.Accepts(store, o.id, ExpectedVersion(o)) then
      SavedOrder(MemoryEventStore.AfterAppend(store, o.id, ExpectedVersion(o), o.uncommitted, OrderDomain().idOf),
                 MarkEventsAsCommitted(o), true)
    else SavedOrder(store, o, false)
  }

  /** Replays the whole stream; None when it is empty or an event is not handled. */
  function LoadOrder(store: MemoryEventStore.Events<OrderEvent>, id: string): Option<Agg<OrderState, OrderEvent>> {
    var events := MemoryEventStore.Stream(store, id);
    if events == [] then None else LoadFromHistory(OrderDomain(), Fresh(OrderDomain(), id), events)
  }

  /**
   In every reachable state this repository, on the memory store, saves and loads as the steps of the
   runs do without snapshots, so what holds for all runs holds for it.
   */
  lemma OrderRepositoryTakesTheSameSteps<B>(
      z: SnapshotRepository.Serializer<OrderState, B>, actions: seq<ClientRuns.Action<OrderEvent>>, k: nat, c: nat,
      id: string)
    requires k <= |actions| && SnapshotRepository.RoundTrips(z)
    ensures var w := ClientRuns.After(OrderDomain(), z, actions, k);
            && (c in w.clients ==>
                  var saved := SaveOrder(w.mem, w.clients[c]);
                  var w' := ClientRuns.SaveClient(OrderDomain(), z, w, c, 0);
                  && w'.mem == saved.store && w'.clients[c] == saved.order
                  && saved.accepted == (SnapshotRepository.Save(OrderDomain(), z, 0, w.db, w.clients[c]).error
                      == SnapshotRepository.NoError))
            && match SnapshotRepository.Load(OrderDomain(), z, w.db, id)
               case Found(a) => LoadOrder(w.mem, id) == Some(a.(snapshotVersion := -1))
               case _ => LoadOrder(w.mem, id) == None
  {
    var d := OrderDomain();
    ClientRuns.InvHolds(d, z, actions, k);
    var w := ClientRuns.After(d, z, actions, k);
    var stream := ClientRuns.Stream(w, id);
    assert ClientRuns.AggregateOk(d, z, w.db, w.mem, id);
    SnapshotRepository.LoadEqualsReplay(d, z, w.db, id, stream);
    if c in w.clients { ClientRuns.NoLockErrorAfterAppend(d, z, actions, k, c, 0); }
  }

  // ---------------------------------------------------------------- whole runs of the order repository

  type OrderAction = ClientRuns.Action<OrderEvent>

  /** The order repository's event store and the orders that its clients hold. */
  datatype OrderWorld = OrderWorld(
      store: MemoryEventStore.Events<OrderEvent>, clients: map<nat, Agg<OrderState, OrderEvent>>)

  function ApplyOrder(w: OrderWorld, c: nat, o: Agg<OrderState, OrderEvent>, e: OrderEvent): OrderWorld {
    match ApplyChange(OrderDomain(), o, e)
    case None => w
    case Some(changed) => w.(clients := w.clients[c := changed])
  }

  /** A client places, loads, changes or saves an order. This repository takes no snapshots. */
  function OrderStep(w: OrderWorld, action: OrderAction): OrderWorld {
    match action
    case Create(c, id, e) =>
      if e.aggregateID == id && e.OrderPlaced? then ApplyOrder(w, c, Fresh(OrderDomain(), id), e) else w
    case Load(c, id) =>
      (match LoadOrder(w.store, id)
       case None => w
       case Some(o) => w.(clients := w.clients[c := o]))
    case Issue(c, e) =>
      if c in w.clients && e.aggregateID == w.clients[c].id && May(w.clients[c].state, e)
      then ApplyOrder(w, c, w.clients[c], e) else w
    case Save(c, _) =>
      if c !in w.clients then w
      else
        var saved := SaveOrder(w.store, w.clients[c]);
        OrderWorld(saved.store, w.clients[c := saved.order])
  }

  function OrdersAfter(actions: seq<OrderAction>, k: nat): OrderWorld
    requires k <= |actions|
  {
    if k == 0 then OrderWorld(MemoryEventStore.Empty(), map[])
    else OrderStep(OrdersAfter(actions, k - 1), actions[k - 1])
  }

  function WithoutSnapshot(action: OrderAction): OrderAction {
    if action.Save? then ClientRuns.Save(action.c, 0) else action
  }

  function WithoutSnapshots(actions: seq<OrderAction>): (r: seq<OrderAction>)
    ensures |r| == |actions| && forall i | 0 <= i < |r| :: r[i] == WithoutSnapshot(actions[i])
  {
    seq(|actions|, i requires 0 <= i < |actions| => WithoutSnapshot(actions[i]))
  }

  type PlainWorld = ClientRuns.World<OrderState, OrderEvent, OrderState>

  function Plain(): SnapshotRepository.Serializer<OrderState, OrderState> {
    SnapshotRepository.Serializer((s: OrderState) => s, (s: OrderState) => Some(s))
  }

  /** The run of the order repository and the run of the snapshotting one without snapshots look alike. */
  ghost predicate Alike(o: OrderWorld, w: PlainWorld) {
    o.store == w.mem && o.clients == w.clients && w.db.snapshots == map[]
  }

  lemma LoadsAlike(w: PlainWorld, id: string)
    requires w.db.snapshots == map[] && ClientRuns.Inv(OrderDomain(), Plain(), w)
    ensures LoadOrder(w.mem, id) ==
              match SnapshotRepository.Load(OrderDomain(), Plain(), w.db, id)
              case Found(a) => Some(a)
              case _ => None
  {
    assert ClientRuns.AggregateOk(OrderDomain(), Plain(), w.db, w.mem, id);
    SnapshotRepository.LoadEqualsReplay(OrderDomain(), Plain(), w.db, id, ClientRuns.Stream(w, id));
  }

  lemma SavesAlike(w: PlainWorld, c: nat)
    requires w.db.snapshots == map[] && ClientRuns.Inv(OrderDomain(), Plain(), w) && c in w.clients
    ensures var saved := SaveOrder(w.mem, w.clients[c]);
            Alike(OrderWorld(saved.store, w.clients[c := saved.order]),
                ClientRuns.SaveClient(OrderDomain(), Plain(), w, c, 0))
  {
    var a := w.clients[c];
    assert ClientRuns.AggregateOk(OrderDomain(), Plain(), w.db, w.mem, a.id);
    if a.uncommitted != [] { ClientRuns.SaveOutcome(OrderDomain(), Plain(), 0, w.db, ClientRuns.Stream(w, a.id), a); }
  }

  lemma StepsAlike(o: OrderWorld, w: PlainWorld, action: OrderAction)
    requires Alike(o, w) && ClientRuns.Inv(OrderDomain(), Plain(), w)
    ensures Alike(OrderStep(o, action), ClientRuns.Step(OrderDomain(), Plain(), w, WithoutSnapshot(action)))
  {
    match action
    case Load(_, id) => LoadsAlike(w, id);
    case Save(c, _) => if c in w.clients { SavesAlike(w, c); }
    case _ =>
  }

  lemma StepsAlikeInRun(actions: seq<OrderAction>, k: nat, o: OrderWorld, w: PlainWorld)
    requires 0 < k <= |actions| && Alike(o, w)
    requires w == ClientRuns.After(OrderDomain(), Plain(), WithoutSnapshots(actions), k - 1)
    ensures Alike(OrderStep(o, actions[k - 1]),
                  ClientRuns.Step(OrderDomain(), Plain(), w, WithoutSnapshot(actions[k - 1])))
  {
    ClientRuns.InvHolds(OrderDomain(), Plain(), WithoutSnapshots(actions), k - 1);
    StepsAlike(o, w, actions[k - 1]);
  }

  /** From the first call to the last, this repository keeps the events and orders that the other one keeps. */
  lemma {:induction false} RunsAlike(actions: seq<OrderAction>, k: nat)
    requires k <= |actions|
    ensures Alike(OrdersAfter(actions, k), ClientRuns.After(OrderDomain(), Plain(), WithoutSnapshots(actions), k))
  {
    if k > 0 {
      RunsAlike(actions, k - 1);
      StepsAlikeInRun(actions, k, OrdersAfter(actions, k - 1),
                      ClientRuns.After(OrderDomain(), Plain(), WithoutSnapshots(actions), k - 1));
    }
  }

  /**
   Under any interleaving of clients that place, load, change and save orders through the order
   repository, every stored order is a prefix of a lawful life: nothing is shipped unpaid, cancelled
   after shipping, or moved again after its end.
   */
  lemma StoredOrdersAreLives(actions: seq<OrderAction>, k: nat, id: string)
    requires k <= |actions|
    ensures IsOrderLife(MemoryEventStore.Stream(OrdersAfter(actions, k).store, id))
  {
    RunsAlike(actions, k);
    SnapshottedOrdersAreLives(Plain(), WithoutSnapshots(actions), k, id);
  }

  /** Conversely every lawful life of an order is stored by some run of the order repository. */
  lemma EveryLifeIsStored(id: string, s: seq<OrderEvent>)
    requires IsOrderLife(s) && forall i | 0 <= i < |s| :: s[i].aggregateID == id
    ensures var actions := ClientRuns.ActionsFor(id, s, |s|, 0);
            MemoryEventStore.Stream(OrdersAfter(actions, |actions|).store, id) == s
  {
    var actions := ClientRuns.ActionsFor(id, s, |s|, 0);
    LifeIsDecided(id, s);
    ClientRuns.EveryDecidedHistoryIsStored(OrderDomain(), Plain(), id, s, |s|, 0);
    SavesWithoutSnapshot(id, s, |s|);
    assert WithoutSnapshots(actions) == actions;
    RunsAlike(actions, |actions|);
    assert s[..|s|] == s;
  }

  ghost predicate NoSnapshots(actions: seq<OrderAction>) {
    forall i | 0 <= i < |actions| :: WithoutSnapshot(actions[i]) == actions[i]
  }

  lemma NoSnapshotsConcat(a: seq<OrderAction>, b: seq<OrderAction>)
    requires NoSnapshots(a) && NoSnapshots(b)
    ensures NoSnapshots(a + b)
  {
  }

  lemma {:induction false} SavesWithoutSnapshot(id: string, s: seq<OrderEvent>, n: nat)
    requires n <= |s|
    ensures NoSnapshots(ClientRuns.ActionsFor(id, s, n, 0))
  {
    if n > 1 {
      SavesWithoutSnapshot(id, s, n - 1);
      NoSnapshotsConcat(ClientRuns.ActionsFor(id, s, n - 1, 0),
                        [ClientRuns.Load(0, id), ClientRuns.Issue(0, s[n - 1]), ClientRuns.Save(0, 0)]);
    }
  }

  // ---------------------------------------------------------------- the fields of an order

  /** The last of the first n events that is of the kind, if there is one. */
  function Last(s: seq<OrderEvent>, n: nat, kind: OrderEvent -> bool): Option<OrderEvent>
    requires n <= |s|
  {
    if n == 0 then None else if kind(s[n - 1]) then Some(s[n - 1]) else Last(s, n - 1, kind)
  }

  function TimeOf(e: Option<OrderEvent>): int {
    match e
    case None => 0
    case Some(x) => x.occurredAt
  }

  /**
   After any events, each field of an order is what the last event of its own kind says: user and total
   those of the placing, the times and the reason those of payment, shipping and cancellation; the status
   is that of the last event of all.
   */
  lemma {:induction false} FieldsAreThoseOfTheLastEvents(s: seq<OrderEvent>, n: nat)
    requires n <= |s| && Replay(OrderDomain(), BLANK, s, n).Some?
    ensures var o := Replay(OrderDomain(), BLANK, s, n).value;
            var placed := Last(s, n, (e: OrderEvent) => e.OrderPlaced?);
            var cancelled := Last(s, n, (e: OrderEvent) => e.OrderCancelled?);
            && o.createdAt == TimeOf(placed)
            && o.paidAt == TimeOf(Last(s, n, (e: OrderEvent) => e.PaymentConfirmed?))
            && o.shippedAt == TimeOf(Last(s, n, (e: OrderEvent) => e.OrderShipped?))
            && o.cancelledAt == TimeOf(cancelled)
            && (placed.Some? ==> placed.value.OrderPlaced?)
            && (cancelled.Some? ==> cancelled.value.OrderCancelled?)
            && o.userID == (if placed.None? then "" else placed.value.userID)
            && o.totalAmount == (if placed.None? then 0.0 else placed.value.total)
            && o.cancelReason == (if cancelled.None? then "" else cancelled.value.reason)
            && o.status == (if n == 0 then Unset
                            else match s[n - 1]
                                 case OrderPlaced(_, _, _, _) => Pending
                                 case PaymentConfirmed(_, _) => Paid
                                 case OrderShipped(_, _) => Shipped
                                 case OrderCancelled(_, _, _) => Cancelled
                                 case Unhandled(_, _) => o.status)
  {
    if n > 0 { FieldsAreThoseOfTheLastEvents(s, n - 1); }
  }

  // ---------------------------------------------------------------- the order's methods

  function Subtotal(item: Item): real {
    item.price * item.quantity as real
  }

  function Total(items: seq<Item>): real {
    if items == [] then 0.0 else Total(items[..|items| - 1]) + Subtotal(items[|items| - 1])
  }

  lemma TotalOfOne(item: Item)
    ensures Total([item]) == item.price * item.quantity as real
  {
    assert [item][..0] == [];
  }

  /** The total of two lists of items is the sum of their totals. */
  lemma {:induction false} TotalOfConcat(a: seq<Item>, b: seq<Item>)
    ensures Total(a + b) == Total(a) + Total(b)
    decreases |b|
  {
    if b == [] {
      assert a + b == a;
    } else {
      assert (a + b)[..|a + b| - 1] == a + b[..|b| - 1];
      TotalOfConcat(a, b[..|b| - 1]);
    }
  }

  class Order {
    // the embedded AggregateRoot
    var id: string
    var version: int
    var snapshotVersion: int
    var uncommittedEvents: seq<OrderEvent>

    var userID: string
    var items: seq<Item>
    var status: OrderStatus
    var totalAmount: real
    var createdAt: int
    var paidAt: int
    var shippedAt: int
    var cancelledAt: int
    var cancelReason: string

    ghost function State(): OrderState
      reads this
    {
      OrderState(userID, status, totalAmount, createdAt, paidAt, shippedAt, cancelledAt, cancelReason)
    }

    ghost function View(): Agg<OrderState, OrderEvent>
      reads this
    {
      Agg(id, State(), version, snapshotVersion, uncommittedEvents)
    }

    constructor ForReplay(id: string)
      ensures View() == Fresh(OrderDomain(), id) && items == []
    {
      this.id := id;
      version, snapshotVersion, uncommittedEvents := 0, -1, [];
      userID, items, status, totalAmount := "", [], Unset, 0.0;
      createdAt, paidAt, shippedAt, cancelledAt, cancelReason := 0, 0, 0, 0, "";
    }

    method When(evt: OrderEvent) returns (nil: bool)
      modifies this`userID, this`totalAmount, this`status, this`createdAt, this`paidAt, this`shippedAt,
               this`cancelledAt, this`cancelReason
      ensures nil == StateAfter(old(State()), evt).Some?
      ensures State() == if nil then StateAfter(old(State()), evt).value else old(State())
    {
      match evt {
        case OrderPlaced(_, at, userID, total) =>
          this.userID := userID;
          totalAmount := total;
          status := Pending;
          createdAt := at;
        case PaymentConfirmed(_, at) =>
          status := Paid;
          paidAt := at;
        case OrderShipped(_, at) =>
          status := Shipped;
          shippedAt := at;
        case OrderCancelled(_, at, reason) =>
          status := Cancelled;
          cancelledAt := at;
          cancelReason := reason;
        case Unhandled(_, _) =>
          return false;
      }
      nil := true;
    }

    method Apply(evt: OrderEvent) returns (nil: bool)
      modifies this
      ensures items == old(items)
      ensures match ApplyChange(OrderDomain(), old(View()), evt)
              case None => !nil && View() == old(View())
              case Some(a) => nil && View() == a
    {
      nil := When(evt);
      if !nil { return; }
      uncommittedEvents := uncommittedEvents + [evt];
      version := version + 1;
    }

    /** Stops at the first event that is not handled. */
    method LoadFromHistory(events: seq<OrderEvent>) returns (nil: bool)
      modifies this
      ensures nil == Aggregates.LoadFromHistory(OrderDomain(), old(View()), events).Some?
      ensures nil ==> View() == Aggregates.LoadFromHistory(OrderDomain(), old(View()), events).value
      ensures !nil ==> exists k :: 0 <= k < |events| && StoppedAt(OrderDomain(), old(View()), events, k, View())
    {
      var i := 0;
      while i < |events|
        invariant i <= |events|
        invariant Replay(OrderDomain(), old(State()), events, i) == Some(State())
        invariant View() == old(View()).(state := State(), version := old(version) + i)
      {
        var ok := When(events[i]);
        if !ok {
          NoReplayPast(OrderDomain(), old(State()), events, i + 1, |events|);
          assert StoppedAt(OrderDomain(), old(View()), events, i, View());
          return false;
        }
        version := version + 1;
        i := i + 1;
      }
      nil := true;
    }

    method MarkEventsAsCommitted()
      modifies this`uncommittedEvents
      ensures View() == Aggregates.MarkEventsAsCommitted(old(View()))
    {
      uncommittedEvents := [];
    }

    /** False is an error: no id, a negative version, no user, no item, or an item without product. */
    method Validate() returns (nil: bool)
      ensures nil <==>
                && id != "" && version >= 0
                && userID != "" && items != [] && forall i | 0 <= i < |items| :: items[i].productID != ""
    {
      if id == "" || version < 0 { return false; }
      if userID == "" || items == [] { return false; }
      var i := 0;
      while i < |items|
        invariant i <= |items| && forall j | 0 <= j < i :: items[j].productID != ""
      {
        if items[i].productID == "" { return false; }
        i := i + 1;
      }
      nil := true;
    }

    method CalculateTotal() returns (total: real)
      ensures total == Total(items)
    {
      total := 0.0;
      var i := 0;
      while i < |items|
        invariant i <= |items| && total == Total(items[..i])
      {
        assert items[..i + 1][..i] == items[..i];
        total := total + Subtotal(items[i]);
        i := i + 1;
      }
      assert items[..i] == items;
    }

    method ConfirmPayment(now: int) returns (nil: bool)
      modifies this
      ensures nil == May(old(State()), PaymentConfirmed(id, now))
      ensures nil ==> Some(View()) == ApplyChange(OrderDomain(), old(View()), PaymentConfirmed(id, now))
      ensures !nil ==> View() == old(View())
    {
      if status != Pending { return false; }
      nil := Apply(PaymentConfirmed(id, now));
    }

    method Ship(now: int) returns (nil: bool)
      modifies this
      ensures nil == May(old(State()), OrderShipped(id, now))
      ensures nil ==> Some(View()) == ApplyChange(OrderDomain(), old(View()), OrderShipped(id, now))
      ensures !nil ==> View() == old(View())
    {
      if status != Paid { return false; }
      nil := Apply(OrderShipped(id, now));
    }

    method Cancel(reason: string, now: int) returns (nil: bool)
      modifies this
      ensures nil == May(old(State()), OrderCancelled(id, now, reason))
      ensures nil ==> Some(View()) == ApplyChange(OrderDomain(), old(View()), OrderCancelled(id, now, reason))
      ensures !nil ==> View() == old(View())
    {
      if status == Cancelled { return false; }
      if status == Shipped { return false; }
      nil := Apply(OrderCancelled(id, now, reason));
    }
  }

  /** null is an error: of Validate, or an empty id. A new order is the blank one with one event applied. */
  method NewOrder(id: string, userID: string, items: seq<Item>, now: int) returns (order: Order?)
    ensures order == null <==>
              id == "" || userID == "" || items == [] || exists i :: 0 <= i < |items| && items[i].productID == ""
    ensures order != null ==>
              && fresh(order) && order.items == items
              && Some(order.View()) ==
                   ApplyChange(OrderDomain(), Fresh(OrderDomain(), id), OrderPlaced(id, now, userID, Total(items)))
  {
    if id == "" { return null; }
    var o := new Order.ForReplay(id);
    o.userID, o.items, o.status, o.createdAt := userID, items, Pending, now;
    var valid := o.Validate();
    if !valid { return null; }
    o.totalAmount := o.CalculateTotal();
    var placed := OrderPlaced(id, now, o.userID, o.totalAmount);
    assert StateAfter(o.State(), placed) == StateAfter(BLANK, placed);
    var nil := o.Apply(placed);
    order := o;
  }

  // ---------------------------------------------------------------- the repository's methods

  datatype SaveError = NoError | AppendConflict | PublishError(index: nat)

  class OrderEventSourcedRepository {
    const eventStore: MemoryEventStore.EventSourceStore<OrderEvent>
    var orders: map<string, Order>

    constructor (eventStore: MemoryEventStore.EventSourceStore<OrderEvent>)
      ensures this.eventStore == eventStore && orders == map[]
    {
      this.eventStore := eventStore;
      orders := map[];
    }

    /**
     `published(i)` is whether the bus takes the i-th event. An event that it refuses ends the Save
     with an error although the events are stored and no longer uncommitted; then the order is not
     registered.
     */
    method Save(order: Order, published: nat -> bool) returns (error: SaveError)
      requires eventStore.idOf == OrderDomain().idOf
      modifies this, eventStore, order
      ensures SavedOrder(eventStore.View(), order.View(), error != AppendConflict) ==
                SaveOrder(old(eventStore.View()), old(order.View()))
      ensures orders == if error == NoError then old(orders)[order.id := order] else old(orders)
      ensures error == NoError ==> forall i | 0 <= i < |old(order.uncommittedEvents)| :: published(i)
      ensures error.PublishError? ==>
                && error.index < |old(order.uncommittedEvents)| && !published(error.index)
                && forall i | 0 <= i < error.index :: published(i)
    {
      var uncommitted := order.uncommittedEvents;
      if |uncommitted| > 0 {
        var nil := eventStore.Append(order.id, order.version - |uncommitted|, uncommitted);
        if !nil { return AppendConflict; }
        order.MarkEventsAsCommitted();
        var i := 0;
        while i < |uncommitted|
          invariant i <= |uncommitted| && forall j | 0 <= j < i :: published(j)
        {
          if !published(i) { return PublishError(i); }
          i := i + 1;
        }
      }
      orders := orders[order.id := order];
      error := NoError;
    }

    method Load(id: string) returns (order: Order?)
      ensures order != null ==> fresh(order)
      ensures match LoadOrder(eventStore.View(), id)
              case None => order == null
              case Some(a) => order != null && order.View() == a
    {
      var events := eventStore.Load(id, 0);
      if events == [] { return null; }
      var replayed := new Order.ForReplay(id);
      var nil := replayed.LoadFromHistory(events);
      if !nil { return null; }
      order := replayed;
    }
  }
}
