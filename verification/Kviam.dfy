/**
 The gateway's view of a KV bucket (internal/gateway/kviam.go): consumeKV folds a watcher's updates
 into a working map and serves whole snapshots of it; watchKV reconnects from scratch whenever a
 watcher dies or the bucket was recreated.

 A watcher does what jetstream.KeyWatcher promises: first every current key once, then nil, then
 every later change of that incarnation of the bucket, in order, until it dies.
 */
module Kviam {
  import opened Wrappers

  /** Synced is the nil entry; a purge is a delete. */
  datatype Update<V> = Put(key: string, value: V) | Delete(key: string) | Synced

  function ApplyUpdate<V>(m: map<string, V>, u: Update<V>): map<string, V> {
    match u
    case Put(key, value) => m[key := value]
    case Delete(key) => m - {key}
    case Synced => m
  }

  /** One bucket's side of KVIAM: consumeKV's locals, the snapshot it serves, and readiness. */
  datatype Client<V> = Client(working: map<string, V>, synced: bool, snapshot: map<string, V>, ready: bool)

  /** One turn of consumeKV's loop. */
  function ClientStep<V>(c: Client<V>, u: Update<V>): Client<V> {
    var working := ApplyUpdate(c.working, u);
    var synced := c.synced || u.Synced?;
    if synced then Client(working, true, working, true) else c.(working := working)
  }

  function ClientSteps<V>(c: Client<V>, us: seq<Update<V>>): Client<V> {
    if us == [] then c else ClientStep(ClientSteps(c, us[..|us| - 1]), us[|us| - 1])
  }

  /** A connection attempt: None if it failed before there was a watcher, else the updates read until it died. */
  type Attempt<V> = Option<seq<Update<V>>>

  function Reconnected<V>(c: Client<V>): Client<V> {
    c.(working := map[], synced := false)
  }

  /** What outlives a connection. */
  datatype Served<V> = Served(snapshot: map<string, V>, ready: bool)

  function AfterAttempts<V>(s: Served<V>, attempts: seq<Attempt<V>>): Served<V> {
    if attempts == [] then s
    else
      var before, last := AfterAttempts(s, attempts[..|attempts| - 1]), attempts[|attempts| - 1];
      if last.None? then before
      else
        var c := ClientSteps(Client(map[], false, before.snapshot, before.ready), last.value);
        Served(c.snapshot, c.ready)
  }

  class KvWatch<V> {
    var snapshot: map<string, V>
    var ready: bool

    constructor ()
      ensures snapshot == map[] && !ready
    {
      snapshot, ready := map[], false;
    }

    method ConsumeKV(updates: seq<Update<V>>) returns (synced: bool)
      modifies this
      ensures var c := ClientSteps(Client(map[], false, old(snapshot), old(ready)), updates);
              snapshot == c.snapshot && ready == c.ready && synced == c.synced
    {
      var working: map<string, V> := map[];
      synced := false;
      ghost var start := Client(map[], false, snapshot, ready);
      for i := 0 to |updates|
        invariant Client(working, synced, snapshot, ready) == ClientSteps(start, updates[..i])
      {
        assert updates[..i + 1][..i] == updates[..i];
        var entry := updates[i];
        if entry.Synced? {
          synced := true;
          snapshot := working;
          ready := true;
          continue;
        }
        match entry {
          case Put(key, value) => working := working[key := value];
          case Delete(key) => working := working - {key};
        }
        if synced {
          snapshot := working;
          ready := true;
        }
      }
      assert updates[..|updates|] == updates;
    }

    method WatchKV(attempts: seq<Attempt<V>>)
      modifies this
      ensures Served(snapshot, ready) == AfterAttempts(Served(old(snapshot), old(ready)), attempts)
    {
      for i := 0 to |attempts|
        invariant Served(snapshot, ready) == AfterAttempts(Served(old(snapshot), old(ready)), attempts[..i])
      {
        assert attempts[..i + 1][..i] == attempts[..i];
        if attempts[i].None? {
          continue;
        }
        var synced := ConsumeKV(attempts[i].value);
      }
      assert attempts[..|attempts|] == attempts;
    }
  }

  // ---------- The bucket, its watcher and the client, interleaved ----------

  /** An update on its way; at is the instant of the bucket it leads to. */
  datatype Item<V> = Item(update: Update<V>, at: nat)

  /** A live watcher is told of every change; a dead one only delivers what it had been told. */
  datatype Watcher<V> = Watcher(queue: seq<Item<V>>, alive: bool)

  /** past holds the bucket's content at every instant so far, the last one being the present. */
  datatype World<V> = World(past: seq<map<string, V>>, watcher: Option<Watcher<V>>, client: Client<V>, connectedAt: nat, at: nat)

  function Start<V>(): World<V> {
    World([map[]], None, Client(map[], false, map[], false), 0, 0)
  }

  /** Scan lists the keys of the present content in the order the initial replay happens to have. */
  datatype Action<V> =
    | BucketPut(key: string, value: V)
    | BucketDelete(key: string)
    | Recreate
    | Connect(order: seq<string>)
    | Consume
    | WatcherDies
    | Disconnect

  function Present<V>(w: World<V>): map<string, V>
    requires w.past != []
  {
    w.past[|w.past| - 1]
  }

  function ChangeStep<V>(w: World<V>, u: Update<V>): World<V>
    requires w.past != []
  {
    var w' := w.(past := w.past + [ApplyUpdate(Present(w), u)]);
    if w.watcher.None? || !w.watcher.value.alive then w'
    else w'.(watcher := Some(w.watcher.value.(queue := w.watcher.value.queue + [Item(u, |w.past|)])))
  }

  /** The bucket is destroyed and created anew, empty: a watcher of the old one hears nothing more. */
  function RecreateStep<V>(w: World<V>): World<V> {
    w.(past := w.past + [map[]],
       watcher := if w.watcher.None? then None else Some(w.watcher.value.(alive := false)))
  }

  predicate Lists<V>(order: seq<string>, content: map<string, V>) {
    && (forall i, j :: 0 <= i < j < |order| ==> order[i] != order[j])
    && (forall key :: key in content ==> key in order)
    && (forall key :: key in order ==> key in content)
  }

  function Replay<V>(order: seq<string>, content: map<string, V>, at: nat): seq<Item<V>>
    requires forall key :: key in order ==> key in content
  {
    seq(|order|, i requires 0 <= i < |order| => Item(Put(order[i], content[order[i]]), at))
  }

  function ConnectStep<V>(w: World<V>, order: seq<string>): World<V>
    requires w.past != []
  {
    if w.watcher.Some? || !Lists(order, Present(w)) then w
    else
      var now := |w.past| - 1;
      w.(watcher := Some(Watcher(Replay(order, Present(w), now) + [Item(Synced, now)], true)),
         client := Reconnected(w.client),
         connectedAt := now)
  }

  function ConsumeStep<V>(w: World<V>): World<V> {
    if w.watcher.None? || w.watcher.value.queue == [] then w
    else
      var item := w.watcher.value.queue[0];
      var client := ClientStep(w.client, item.update);
      w.(watcher := Some(w.watcher.value.(queue := w.watcher.value.queue[1..])),
         client := client,
         at := if client.synced then item.at else w.at)
  }

  function Step<V>(w: World<V>, a: Action<V>): World<V>
    requires w.past != []
  {
    match a
    case BucketPut(key, value) => ChangeStep(w, Put(key, value))
    case BucketDelete(key) => ChangeStep(w, Delete(key))
    case Recreate => RecreateStep(w)
    case Connect(order) => ConnectStep(w, order)
    case Consume => ConsumeStep(w)
    case WatcherDies => if w.watcher.None? then w else w.(watcher := Some(w.watcher.value.(alive := false)))
    case Disconnect => w.(watcher := None)
  }

  function Run<V>(actions: seq<Action<V>>): (w: World<V>)
    ensures w.past != []
  {
    if actions == [] then Start() else Step(Run(actions[..|actions| - 1]), actions[|actions| - 1])
  }

  // ---------- The invariant ----------

  function Drain<V>(m: map<string, V>, items: seq<Item<V>>): map<string, V> {
    if items == [] then m else ApplyUpdate(Drain(m, items[..|items| - 1]), items[|items| - 1].update)
  }

  predicate SyncedBy<V>(c: Client<V>, items: seq<Item<V>>) {
    c.synced || exists i :: 0 <= i < |items| && items[i].update.Synced?
  }

  /** Once the first i items are consumed the working map is a whole past content, if it is synced by then. */
  ghost predicate PrefixOk<V>(w: World<V>, items: seq<Item<V>>, i: nat) {
    0 < i <= |items| && SyncedBy(w.client, items[..i]) ==>
      items[i - 1].at < |w.past| && Drain(w.client.working, items[..i]) == w.past[items[i - 1].at]
  }

  ghost predicate Ordered<V>(items: seq<Item<V>>, from: nat) {
    && (forall i :: 0 <= i < |items| ==> from <= items[i].at)
    && (forall i, j :: 0 <= i < j < |items| ==> items[i].at <= items[j].at)
  }

  ghost predicate WatcherOk<V>(w: World<V>) {
    w.watcher.Some? && w.past != [] ==>
      var items := w.watcher.value.queue;
      && (forall i: nat :: PrefixOk(w, items, i))
      && Ordered(items, if w.client.synced then w.at else w.connectedAt)
      && w.at <= (if w.client.synced then w.at else w.connectedAt) < |w.past|
      && (forall i :: 0 <= i < |items| ==> items[i].at < |w.past|)
      && SyncedBy(w.client, items)
      && (w.watcher.value.alive ==> Drain(w.client.working, items) == Present(w))
      && (w.client.synced ==> w.client.working == w.past[w.at])
  }

  ghost predicate Inv<V>(w: World<V>) {
    && w.past != [] && w.at < |w.past|
    && (w.client.ready ==> w.client.snapshot == w.past[w.at])
    && (!w.client.ready ==> w.client.snapshot == map[] && !w.client.synced)
    && WatcherOk(w)
  }

  lemma {:induction false} DrainFront<V>(m: map<string, V>, items: seq<Item<V>>)
    requires items != []
    ensures Drain(ApplyUpdate(m, items[0].update), items[1..]) == Drain(m, items)
  {
    if |items| == 1 {
      assert items[..0] == [] && items[1..] == [];
    } else {
      var init := items[..|items| - 1];
      DrainFront(m, init);
      assert items[1..][..|items| - 2] == init[1..];
    }
  }

  /** The initial replay, drained into an empty map, rebuilds the content it lists. */
  lemma {:induction false} ReplayRebuilds<V>(order: seq<string>, content: map<string, V>, at: nat, n: nat)
    requires Lists(order, content) && n <= |order|
    ensures var m := Drain(map[], Replay(order, content, at)[..n]);
            && (forall key :: key in m <==> key in order[..n])
            && (forall key :: key in m ==> m[key] == content[key])
  {
    if n > 0 {
      ReplayRebuilds(order, content, at, n - 1);
      var items := Replay(order, content, at);
      assert items[..n][..n - 1] == items[..n - 1];
      assert order[..n] == order[..n - 1] + [order[n - 1]];
    }
  }

  /** The whole initial replay rebuilds the content at the moment of connecting; no part of it is synced. */
  lemma ReplayOk<V>(order: seq<string>, content: map<string, V>, now: nat)
    requires Lists(order, content)
    ensures var items := Replay(order, content, now) + [Item(Synced, now)];
            && Drain(map[], items) == content
            && (forall i :: 0 <= i < |items| ==> items[i].at == now && (items[i].update.Synced? <==> i == |items| - 1))
  {
    var replay := Replay(order, content, now);
    var items := replay + [Item(Synced, now)];
    ReplayRebuilds(order, content, now, |order|);
    assert replay[..|order|] == replay && order[..|order|] == order;
    assert Drain(map[], replay) == content;
    assert items[..|replay|] == replay;
  }

  /** A queue whose only synced item is its last leads to a whole content only at its end. */
  lemma OnlyLastSynced<V>(w: World<V>, items: seq<Item<V>>, i: nat)
    requires items != [] && !w.client.synced && items[|items| - 1].at < |w.past|
    requires Drain(w.client.working, items) == w.past[items[|items| - 1].at]
    requires forall j :: 0 <= j < |items| ==> (items[j].update.Synced? <==> j == |items| - 1)
    ensures PrefixOk(w, items, i)
  {
    hide Drain;
    if 0 < i <= |items| && SyncedBy(w.client, items[..i]) {
      var j :| 0 <= j < i && items[..i][j].update.Synced?;
      assert j == |items| - 1;
      assert items[..i] == items;
    }
  }

  lemma ConnectKeepsInv<V>(w: World<V>, order: seq<string>)
    requires Inv(w)
    ensures Inv(ConnectStep(w, order))
  {
    hide Replay, Drain, Lists, PrefixOk;
    var w' := ConnectStep(w, order);
    if w.watcher.None? && Lists(order, Present(w)) {
      var items := w'.watcher.value.queue;
      ReplayOk(order, Present(w), |w.past| - 1);
      forall i: nat ensures PrefixOk(w', items, i) {
        OnlyLastSynced(w', items, i);
      }
      assert items[|items| - 1].update.Synced?;
    }
  }

  lemma ConsumeKeepsInv<V>(w: World<V>)
    requires Inv(w)
    ensures Inv(ConsumeStep(w))
  {
    hide PrefixOk, Drain, SyncedBy, ApplyUpdate;
    var w' := ConsumeStep(w);
    if w.watcher.Some? && w.watcher.value.queue != [] {
      var items := w.watcher.value.queue;
      DrainFront(w.client.working, items);
      forall i: nat ensures PrefixOk(w', items[1..], i) {
        ConsumeKeepsPrefix(w, i);
      }
      FirstConsumed(w);
      SyncedAfter(w.client, items);
      ConsumedWorking(w);
    }
  }

  lemma ConsumedWorking<V>(w: World<V>)
    requires w.watcher.Some? && w.watcher.value.queue != []
    ensures ConsumeStep(w).client.working == ApplyUpdate(w.client.working, w.watcher.value.queue[0].update)
  {
  }

  lemma SyncedAfter<V>(c: Client<V>, items: seq<Item<V>>)
    requires items != [] && SyncedBy(c, items)
    ensures SyncedBy(ClientStep(c, items[0].update), items[1..])
  {
    if !c.synced && !items[0].update.Synced? {
      var i :| 0 <= i < |items| && items[i].update.Synced?;
      assert items[1..][i - 1].update.Synced?;
    }
  }

  lemma SyncedBefore<V>(c: Client<V>, items: seq<Item<V>>, i: nat)
    requires items != [] && i < |items| && SyncedBy(ClientStep(c, items[0].update), items[1..][..i])
    ensures SyncedBy(c, items[..i + 1])
  {
    if !c.synced {
      if items[0].update.Synced? {
        assert items[..i + 1][0].update.Synced?;
      } else {
        var j :| 0 <= j < i && items[1..][..i][j].update.Synced?;
        assert items[..i + 1][j + 1].update.Synced?;
      }
    }
  }

  lemma ConsumeKeepsPrefix<V>(w: World<V>, i: nat)
    requires Inv(w) && w.watcher.Some? && w.watcher.value.queue != []
    ensures PrefixOk(ConsumeStep(w), w.watcher.value.queue[1..], i)
  {
    var items, w' := w.watcher.value.queue, ConsumeStep(w);
    var rest := items[1..];
    if 0 < i <= |rest| && SyncedBy(w'.client, rest[..i]) {
      SyncedBefore(w.client, items, i);
      assert PrefixOk(w, items, i + 1);
      DrainFront(w.client.working, items[..i + 1]);
      assert items[..i + 1][1..] == rest[..i];
    }
  }

  /** If the client is synced after the first item, its working map is the content that item leads to. */
  lemma FirstConsumed<V>(w: World<V>)
    requires Inv(w) && w.watcher.Some? && w.watcher.value.queue != []
    ensures var (item, w') := (w.watcher.value.queue[0], ConsumeStep(w));
            w'.client.synced ==> item.at < |w.past| && w'.client.working == w.past[item.at]
  {
    var items := w.watcher.value.queue;
    assert PrefixOk(w, items, 1);
    var first := [items[0]];
    assert items[..1] == first && first[..0] == [];
    assert Drain(w.client.working, first) == ApplyUpdate(w.client.working, items[0].update);
    if items[0].update.Synced? {
      assert items[..1][0].update.Synced?;
    }
  }

  lemma ChangeKeepsPrefix<V>(w: World<V>, u: Update<V>, i: nat)
    requires Inv(w) && w.watcher.Some?
    ensures PrefixOk(ChangeStep(w, u), ChangeStep(w, u).watcher.value.queue, i)
  {
    hide Drain;
    var w' := ChangeStep(w, u);
    var items, items' := w.watcher.value.queue, w'.watcher.value.queue;
    if i <= |items| {
      assert PrefixOk(w, items, i);
      assert items'[..i] == items[..i];
    } else if i == |items'| {
      assert items'[..i] == items';
      DrainLast(w.client.working, items, items'[|items|]);
    }
  }

  lemma DrainLast<V>(m: map<string, V>, items: seq<Item<V>>, item: Item<V>)
    ensures Drain(m, items + [item]) == ApplyUpdate(Drain(m, items), item.update)
  {
    assert (items + [item])[..|items|] == items;
  }

  lemma ChangeKeepsInv<V>(w: World<V>, u: Update<V>)
    requires Inv(w)
    ensures Inv(ChangeStep(w, u))
  {
    hide Drain, PrefixOk, ApplyUpdate;
    var w' := ChangeStep(w, u);
    if w.watcher.Some? {
      var items, items' := w.watcher.value.queue, w'.watcher.value.queue;
      forall i: nat ensures PrefixOk(w', items', i) {
        ChangeKeepsPrefix(w, u, i);
      }
      if items' != items {
        DrainLast(w.client.working, items, items'[|items|]);
      }
      SyncedGrows(w.client, items, items');
    }
  }

  lemma SyncedGrows<V>(c: Client<V>, items: seq<Item<V>>, more: seq<Item<V>>)
    requires SyncedBy(c, items) && items <= more
    ensures SyncedBy(c, more)
  {
    if !c.synced {
      var i :| 0 <= i < |items| && items[i].update.Synced?;
      assert more[i].update.Synced?;
    }
  }

  lemma RecreateKeepsInv<V>(w: World<V>)
    requires Inv(w)
    ensures Inv(RecreateStep(w))
  {
    var w' := RecreateStep(w);
    if w.watcher.Some? {
      forall i: nat ensures PrefixOk(w', w.watcher.value.queue, i) {
        assert PrefixOk(w, w.watcher.value.queue, i);
      }
    }
  }

  lemma DeathKeepsInv<V>(w: World<V>)
    requires Inv(w)
    ensures Inv(Step(w, WatcherDies))
  {
    var w' := Step(w, WatcherDies);
    if w.watcher.Some? {
      forall i: nat ensures PrefixOk(w', w.watcher.value.queue, i) {
        assert PrefixOk(w, w.watcher.value.queue, i);
      }
    }
  }

  lemma StepKeepsInv<V>(w: World<V>, a: Action<V>)
    requires Inv(w)
    ensures Inv(Step(w, a))
  {
    match a
    case BucketPut(key, value) => ChangeKeepsInv(w, Put(key, value));
    case BucketDelete(key) => ChangeKeepsInv(w, Delete(key));
    case Recreate => RecreateKeepsInv(w);
    case Connect(order) => ConnectKeepsInv(w, order);
    case Consume => ConsumeKeepsInv(w);
    case WatcherDies => DeathKeepsInv(w);
    case Disconnect =>
  }

  lemma {:induction false} RunInv<V>(actions: seq<Action<V>>)
    ensures Inv(Run(actions))
  {
    if actions != [] {
      RunInv(actions[..|actions| - 1]);
      StepKeepsInv(Run(actions[..|actions| - 1]), actions[|actions| - 1]);
    }
  }

  // ---------- The promises ----------

  /**
   Whatever changes, dies, reconnects or is recreated: once ready, what is served is the whole
   content of the bucket at one past instant, never part of a scan.
   */
  lemma ServedSnapshotsAreWhole<V>(actions: seq<Action<V>>)
    ensures var w := Run(actions);
            w.client.ready ==> w.at < |w.past| && w.client.snapshot == w.past[w.at]
  {
    RunInv(actions);
  }

  /** The instant served never moves back, and what was the past stays the past. */
  lemma SnapshotsNeverGoBack<V>(actions: seq<Action<V>>, a: Action<V>)
    ensures var (w, w') := (Run(actions), Run(actions + [a]));
            && w.at <= w'.at && w.past <= w'.past
            && (w.client.ready ==> w'.client.ready)
  {
    assert (actions + [a])[..|actions|] == actions;
    RunInv(actions);
  }

  /** A connected client that has read all its watcher has, while the watcher lives, serves the present. */
  lemma CaughtUpServesThePresent<V>(actions: seq<Action<V>>)
    requires var w := Run(actions); w.watcher.Some? && w.watcher.value.alive && w.watcher.value.queue == []
    ensures var w := Run(actions); w.client.ready && w.client.snapshot == Present(w)
  {
    RunInv(actions);
  }

  lemma {:induction false} KeysListed<V>(content: map<string, V>) returns (order: seq<string>)
    ensures Lists(order, content)
    decreases |content|
  {
    order := [];
    if key :| key in content {
      var rest := KeysListed(content - {key});
      order := rest + [key];
    }
  }

  function Consumes<V>(n: nat): seq<Action<V>> {
    if n == 0 then [] else Consumes(n - 1) + [Consume]
  }

  /** n reads take the first n updates off the queue and nothing else happens to the bucket. */
  lemma {:induction false} ConsumesDrain<V>(actions: seq<Action<V>>, n: nat)
    requires Run(actions).watcher.Some? && n <= |Run(actions).watcher.value.queue|
    ensures var (w, w') := (Run(actions), Run(actions + Consumes(n)));
            && w'.past == w.past && w'.watcher.Some? && w'.watcher.value.alive == w.watcher.value.alive
            && w'.watcher.value.queue == w.watcher.value.queue[n..]
  {
    hide ClientStep;
    if n == 0 {
      assert actions + Consumes(0) == actions;
    } else {
      ConsumesDrain(actions, n - 1);
      var all := actions + Consumes(n);
      assert all[..|all| - 1] == actions + Consumes(n - 1) && all[|all| - 1] == Consume;
      assert Run(actions).watcher.value.queue[n - 1..][1..] == Run(actions).watcher.value.queue[n..];
    }
  }

  lemma Reconnects<V>(w: World<V>, order: seq<string>)
    requires w.past != [] && Lists(order, Present(w))
    ensures var w' := Step(Step(w, Disconnect), Connect(order));
            w'.past == w.past && w'.watcher.Some? && w'.watcher.value.alive
  {
    hide Replay, Lists;
  }

  /**
   From wherever a run stands, a client that reconnects and reads on while nothing changes ends up
   ready and serving the bucket's present content.
   */
  lemma ReconnectServesThePresent<V>(actions: seq<Action<V>>) returns (more: seq<Action<V>>)
    ensures var (w, w') := (Run(actions), Run(actions + more));
            w'.past == w.past && w'.client.ready && w'.client.snapshot == Present(w)
  {
    hide Lists, Replay, ClientStep, Step;
    var order := KeysListed(Present(Run(actions)));
    var again := [Disconnect, Connect(order)];
    var connected := actions + again;
    assert connected[..|actions| + 1] == actions + [Disconnect] && (actions + [Disconnect])[..|actions|] == actions;
    assert connected[|actions| + 1] == Connect(order) && (actions + [Disconnect])[|actions|] == Disconnect;
    assert Run(actions + [Disconnect]) == Step(Run(actions), Disconnect);
    assert Run(connected) == Step(Run(actions + [Disconnect]), Connect(order));
    Reconnects(Run(actions), order);
    var n := |Run(connected).watcher.value.queue|;
    ConsumesDrain(connected, n);
    CaughtUpServesThePresent(connected + Consumes(n));
    more := again + Consumes(n);
    assert actions + more == connected + Consumes(n);
  }

  // ---------- What the loops do is what a run does ----------

  /** What consumeKV starts the last attempt with. */
  function AtConnect<V>(attempts: seq<Attempt<V>>): Client<V>
    requires attempts != []
  {
    var before := AfterAttempts(Served(map[], false), attempts[..|attempts| - 1]);
    Client(map[], false, before.snapshot, before.ready)
  }

  /** c has read what the attempts delivered, and nothing else. */
  ghost predicate HasRead<V>(c: Client<V>, attempts: seq<Attempt<V>>) {
    && Served(c.snapshot, c.ready) == AfterAttempts(Served(map[], false), attempts)
    && (attempts != [] ==> attempts[|attempts| - 1].Some? && c == ClientSteps(AtConnect(attempts), attempts[|attempts| - 1].value))
  }

  lemma ConnectIsAttempt<V>(c: Client<V>, attempts: seq<Attempt<V>>)
    requires HasRead(c, attempts)
    ensures HasRead(Reconnected(c), attempts + [Some([])])
  {
    assert (attempts + [Some([])])[..|attempts|] == attempts;
  }

  /** The last attempt with one more update read. */
  function WithUpdate<V>(attempts: seq<Attempt<V>>, u: Update<V>): seq<Attempt<V>>
    requires attempts != [] && attempts[|attempts| - 1].Some?
  {
    attempts[..|attempts| - 1] + [Some(attempts[|attempts| - 1].value + [u])]
  }

  lemma OneMoreUpdate<V>(c: Client<V>, us: seq<Update<V>>, u: Update<V>)
    ensures ClientSteps(c, us + [u]) == ClientStep(ClientSteps(c, us), u)
  {
    assert (us + [u])[..|us|] == us;
  }

  lemma ServedByLast<V>(attempts: seq<Attempt<V>>)
    requires attempts != [] && attempts[|attempts| - 1].Some?
    ensures var c := ClientSteps(AtConnect(attempts), attempts[|attempts| - 1].value);
            AfterAttempts(Served(map[], false), attempts) == Served(c.snapshot, c.ready)
  {
    hide ClientSteps;
  }

  lemma ConsumeIsUpdate<V>(c: Client<V>, attempts: seq<Attempt<V>>, u: Update<V>)
    requires attempts != [] && HasRead(c, attempts)
    ensures HasRead(ClientStep(c, u), WithUpdate(attempts, u))
  {
    hide ClientStep, ClientSteps, AfterAttempts;
    var n := |attempts| - 1;
    assert WithUpdate(attempts, u)[..n] == attempts[..n];
    OneMoreUpdate(AtConnect(attempts), attempts[n].value, u);
    ServedByLast(WithUpdate(attempts, u));
  }

  lemma OthersReadNothing<V>(w: World<V>, a: Action<V>)
    requires w.past != [] && !a.Connect? && !a.Consume?
    ensures Step(w, a).client == w.client && (Step(w, a).watcher.Some? ==> w.watcher.Some?)
  {
  }

  /**
   Every run is a sequence of connection attempts and the updates each of them read: the client it
   leaves is what watchKV and consumeKV leave after them.
   */
  lemma {:induction false} RunIsAttempts<V>(actions: seq<Action<V>>) returns (attempts: seq<Attempt<V>>)
    ensures HasRead(Run(actions).client, attempts)
    ensures Run(actions).watcher.Some? ==> attempts != []
  {
    hide HasRead, Lists, Replay, ClientStep;
    if actions == [] {
      attempts := [];
      NothingRead<V>();
    } else {
      var w, a := Run(actions[..|actions| - 1]), actions[|actions| - 1];
      attempts := RunIsAttempts(actions[..|actions| - 1]);
      if Step(w, a) == w {
      } else if a.Connect? {
        ConnectIsAttempt(w.client, attempts);
        attempts := attempts + [Some([])];
      } else if a.Consume? {
        LastIsSome(w.client, attempts);
        ConsumeIsUpdate(w.client, attempts, w.watcher.value.queue[0].update);
        attempts := WithUpdate(attempts, w.watcher.value.queue[0].update);
      } else {
        OthersReadNothing(w, a);
      }
    }
  }

  lemma NothingRead<V>()
    ensures HasRead(Start<V>().client, [])
  {
  }

  lemma LastIsSome<V>(c: Client<V>, attempts: seq<Attempt<V>>)
    requires attempts != [] && HasRead(c, attempts)
    ensures attempts[|attempts| - 1].Some?
  {
  }

  // ---------- Both buckets ----------

  /** NewKVIAM's last goroutine: wait for KEYS, then for ALIASES, then report ready. */
  datatype Rendezvous = AwaitingKeys | AwaitingAliases | Ready

  datatype Gateway<K, A> = Gateway(keys: World<K>, aliases: World<A>, rendezvous: Rendezvous)

  datatype GatewayAction<K, A> = OfKeys(k: Action<K>) | OfAliases(a: Action<A>) | Select

  function SelectStep<K, A>(g: Gateway<K, A>): Gateway<K, A> {
    match g.rendezvous
    case AwaitingKeys => if g.keys.client.ready then g.(rendezvous := AwaitingAliases) else g
    case AwaitingAliases => if g.aliases.client.ready then g.(rendezvous := Ready) else g
    case Ready => g
  }

  function GatewayRun<K, A>(actions: seq<GatewayAction<K, A>>): (g: Gateway<K, A>)
    ensures g.keys.past != [] && g.aliases.past != []
  {
    if actions == [] then Gateway(Start(), Start(), AwaitingKeys)
    else
      var g := GatewayRun(actions[..|actions| - 1]);
      match actions[|actions| - 1]
      case OfKeys(k) => g.(keys := Step(g.keys, k))
      case OfAliases(a) => g.(aliases := Step(g.aliases, a))
      case Select => SelectStep(g)
  }

  ghost predicate GatewayInv<K, A>(g: Gateway<K, A>) {
    && Inv(g.keys) && Inv(g.aliases)
    && (!g.rendezvous.AwaitingKeys? ==> g.keys.client.ready)
    && (g.rendezvous.Ready? ==> g.aliases.client.ready)
  }

  lemma StepKeepsReady<V>(w: World<V>, a: Action<V>)
    requires w.past != []
    ensures w.client.ready ==> Step(w, a).client.ready
  {
  }

  lemma {:induction false} GatewayRunInv<K, A>(actions: seq<GatewayAction<K, A>>)
    ensures GatewayInv(GatewayRun(actions))
  {
    hide Step, Inv;
    if actions == [] {
      RunInv<K>([]);
      RunInv<A>([]);
    } else {
      GatewayRunInv(actions[..|actions| - 1]);
      var g := GatewayRun(actions[..|actions| - 1]);
      match actions[|actions| - 1]
      case OfKeys(k) =>
        StepKeepsInv(g.keys, k);
        StepKeepsReady(g.keys, k);
      case OfAliases(a) =>
        StepKeepsInv(g.aliases, a);
        StepKeepsReady(g.aliases, a);
      case Select =>
    }
  }

  /**
   Once the gateway reports ready, both snapshots are whole contents of their buckets at some past
   instant, and that stays so whatever happens to either bucket or watcher; and it does report ready
   once both watches are and its goroutine has run twice.
   */
  lemma ReadyServesBoth<K, A>(before: seq<GatewayAction<K, A>>, more: seq<GatewayAction<K, A>>)
    ensures var (g, g') := (GatewayRun(before), GatewayRun(before + more));
            && (g.rendezvous.Ready? ==>
                  && g'.rendezvous.Ready?
                  && g'.keys.at < |g'.keys.past| && g'.keys.client.snapshot == g'.keys.past[g'.keys.at]
                  && g'.aliases.at < |g'.aliases.past| && g'.aliases.client.snapshot == g'.aliases.past[g'.aliases.at])
            && (g.keys.client.ready && g.aliases.client.ready && more == [Select, Select] ==> g'.rendezvous.Ready?)
  {
    if GatewayRun(before).rendezvous.Ready? {
      ReadyStays(before, more);
    }
    GatewayRunInv(before + more);
    if more == [Select, Select] {
      assert (before + more)[..|before| + 1] == before + [Select];
      assert (before + [Select])[..|before|] == before;
    }
  }

  lemma {:induction false} ReadyStays<K, A>(before: seq<GatewayAction<K, A>>, more: seq<GatewayAction<K, A>>)
    requires GatewayRun(before).rendezvous.Ready?
    ensures GatewayRun(before + more).rendezvous.Ready?
  {
    hide Step;
    if more == [] {
      assert before + more == before;
    } else {
      ReadyStays(before, more[..|more| - 1]);
      assert (before + more)[..|before + more| - 1] == before + more[..|more| - 1];
    }
  }
}
