/**
  A model of the `hitman` registry: a table from names to contracts, each
  contract pairing a registered worker's name with the kill channel that
  its `Start` handed out, and the `Close` operation that sends one kill
  signal to every registered worker and waits on a shared barrier until
  every worker and every sender has reported done.

  Goroutines and channel rendezvous are not modelled: `Close` is the
  sequential bookkeeping of the same sends and barrier counts.
 */
module Hitman {

  datatype Option<T> = None | Some(value: T)

  /** The error value a fallible worker constructor hands to `AddOrPanic`. */
  datatype Error = Error(message: string)

  /** Who reports done on the barrier for an entry: its worker or its sending goroutine. */
  datatype Role = Worker | Sender

  /** One `Done` call, tagged with the entry it was made for and by whom. */
  datatype Ack = Ack(name: string, role: Role)

  /**
    The join barrier (`sync.WaitGroup`) as a counter, together with a tally
    of how many `Done` calls it has received. The ghost fields record the
    total ever added and, in order, who made each `Done` call.
   */
  class WaitGroup {
    var counter: int
    var dones: nat
    ghost var added: int
    ghost var acks: seq<Ack>

    /** The zero value `sync.WaitGroup{}`. */
    constructor ()
      ensures counter == 0 && dones == 0
      ensures added == 0 && acks == []
    {
      counter := 0;
      dones := 0;
      added := 0;
      acks := [];
    }

    /** A counter that would go negative is a panic of the barrier. */
    method Add(delta: int)
      requires counter + delta >= 0
      modifies this
      ensures counter == old(counter) + delta && dones == old(dones)
      ensures added == old(added) + delta && acks == old(acks)
    {
      counter := counter + delta;
      added := added + delta;
    }

    /** A `Done` call made by `caller`. */
    method Done(ghost caller: Ack)
      requires counter > 0
      modifies this
      ensures counter == old(counter) - 1 && dones == old(dones) + 1
      ensures added == old(added) && acks == old(acks) + [caller]
    {
      counter := counter - 1;
      dones := dones + 1;
      acks := acks + [caller];
    }

    /**
      In the sequential model every `Done` has been tallied before `Wait`,
      so the barrier is released: the counter must already be zero.
     */
    method Wait()
      requires counter == 0
    {
    }
  }

  /** Sent on a kill channel: the receiver's registered name and the shared barrier. */
  datatype KillSignal = KillSignal(name: string, waitGroup: WaitGroup)

  /**
    A kill channel, identified by `id` (Go channels compare by identity),
    with its capacity and the signals buffered in it.
   */
  datatype KillChannel = KillChannel(id: nat, capacity: nat, buffered: seq<KillSignal>)

  /** A send of `signal` on `channel`, as `Close` performs it. */
  datatype Delivery = Delivery(channel: KillChannel, signal: KillSignal)

  /** An unbuffered channel: nothing queued and room for nothing. */
  function NewKillChannel(id: nat): (ch: KillChannel)
    ensures ch.id == id
    ensures ch.capacity == 0 && |ch.buffered| == 0
  {
    KillChannel(id, 0, [])
  }

  /** A registry entry: the name a worker was registered under and its kill channel. */
  datatype Contract = Contract(name: string, done: KillChannel) {

    /** The send that takes the target down, carrying its own name and the barrier. */
    function Kill(wg: WaitGroup): (d: Delivery)
      ensures d.channel == done
      ensures d.signal.name == name && d.signal.waitGroup == wg
    {
      Delivery(done, KillSignal(name, wg))
    }
  }

  /**
    A worker handed to the registry; `name` is present exactly when the
    worker also implements `Named`.
   */
  datatype Target = Target(name: Option<string>)

  /** The name under which `AddTarget` registers `t`. */
  function ChosenName(t: Target, generated: string): string
  {
    match t.name
    case Some(n) => n
    case None => generated
  }

  /** The table after `name` has been (re-)registered with channel `ch`. */
  function Registered(m: map<string, Contract>, name: string, ch: KillChannel): map<string, Contract>
  {
    m[name := Contract(name, ch)]
  }

  /**
    Registering `name` maps it to a contract with that name and the given
    channel, keeps every other entry, adds no other key, and grows the
    table by one exactly when `name` was absent.
   */
  lemma RegisteredFacts(m: map<string, Contract>, name: string, ch: KillChannel)
    ensures name in Registered(m, name, ch) && Registered(m, name, ch)[name] == Contract(name, ch)
    ensures forall k :: k != name ==>
              (k in Registered(m, name, ch) <==> k in m) && (k in m ==> Registered(m, name, ch)[k] == m[k])
    ensures |Registered(m, name, ch)| == if name in m then |m| else |m| + 1
  {
  }

  /**
    Every entry is stored under its own name, its channel is an unbuffered
    one handed out before `next`, and no two entries share a channel.
   */
  ghost predicate WellFormed(m: map<string, Contract>, next: nat)
  {
    && (forall k :: k in m ==>
          && m[k].name == k
          && m[k].done.id < next
          && m[k].done.capacity == 0
          && m[k].done.buffered == [])
    && (forall a, b :: a in m && b in m && a != b ==> m[a].done.id != m[b].done.id)
  }

  /** The table after registering `names` in order, channels numbered from `next`. */
  function Replay(m: map<string, Contract>, next: nat, names: seq<string>): map<string, Contract>
    decreases |names|
  {
    if names == [] then m
    else Replay(Registered(m, names[0], NewKillChannel(next)), next + 1, names[1..])
  }

  /** After a replay the keys are the old keys plus every registered name. */
  lemma {:induction false} ReplayKeys(m: map<string, Contract>, next: nat, names: seq<string>)
    ensures forall k :: k in Replay(m, next, names) <==> k in m || k in names
    decreases |names|
  {
    if names != [] {
      ReplayKeys(Registered(m, names[0], NewKillChannel(next)), next + 1, names[1..]);
      assert forall k :: k in names <==> k == names[0] || k in names[1..];
    }
  }

  /** A name that is never registered keeps whatever entry it had. */
  lemma {:induction false} ReplayUntouched(m: map<string, Contract>, next: nat, names: seq<string>, k: string)
    requires forall i :: 0 <= i < |names| ==> names[i] != k
    ensures k in Replay(m, next, names) <==> k in m
    ensures k in m ==> Replay(m, next, names)[k] == m[k]
    decreases |names|
  {
    if names != [] {
      var m' := Registered(m, names[0], NewKillChannel(next));
      forall i | 0 <= i < |names[1..]| ensures names[1..][i] != k {
        assert names[1..][i] == names[i + 1];
      }
      ReplayUntouched(m', next + 1, names[1..], k);
    }
  }

  /**
    The last registration of a name wins: after registering `names`, the
    entry for `names[i]`, when no later position repeats it, holds the
    channel handed out at step `i`.
   */
  lemma {:induction false} ReplayLastWins(m: map<string, Contract>, next: nat, names: seq<string>, i: nat)
    requires i < |names|
    requires forall j :: i < j < |names| ==> names[j] != names[i]
    ensures names[i] in Replay(m, next, names)
    ensures Replay(m, next, names)[names[i]] == Contract(names[i], NewKillChannel(next + i))
    decreases |names|
  {
    var m' := Registered(m, names[0], NewKillChannel(next));
    if i == 0 {
      forall j | 0 <= j < |names[1..]| ensures names[1..][j] != names[0] {
        assert names[1..][j] == names[j + 1];
      }
      ReplayUntouched(m', next + 1, names[1..], names[0]);
    } else {
      assert names[1..][i - 1] == names[i];
      forall j | i - 1 < j < |names[1..]| ensures names[1..][j] != names[1..][i - 1] {
        assert names[1..][j] == names[j + 1];
      }
      ReplayLastWins(m', next + 1, names[1..], i - 1);
    }
  }

  /**
    Registering pairwise distinct names that are not yet taken grows the
    table by exactly the number of names.
   */
  lemma {:induction false} ReplayFreshSize(m: map<string, Contract>, next: nat, names: seq<string>)
    requires forall i, j :: 0 <= i < j < |names| ==> names[i] != names[j]
    requires forall i :: 0 <= i < |names| ==> names[i] !in m
    ensures |Replay(m, next, names)| == |m| + |names|
    decreases |names|
  {
    if names != [] {
      var m' := Registered(m, names[0], NewKillChannel(next));
      forall i | 0 <= i < |names[1..]| ensures names[1..][i] !in m' {
        assert names[1..][i] == names[i + 1];
      }
      ReplayFreshSize(m', next + 1, names[1..]);
    }
  }

  /** One more registration after a replay is the replay of the longer sequence. */
  lemma {:induction false} ReplaySnoc(m: map<string, Contract>, next: nat, names: seq<string>, name: string)
    ensures Replay(m, next, names + [name])
         == Registered(Replay(m, next, names), name, NewKillChannel(next + |names|))
    decreases |names|
  {
    if names == [] {
      assert [] + [name] == [name] && [name][1..] == [];
    } else {
      assert (names + [name])[1..] == names[1..] + [name];
      ReplaySnoc(Registered(m, names[0], NewKillChannel(next)), next + 1, names[1..], name);
    }
  }

  /** Registering a fresh channel keeps the table well formed. */
  lemma RegisteredWellFormed(m: map<string, Contract>, next: nat, name: string)
    requires WellFormed(m, next)
    ensures WellFormed(Registered(m, name, NewKillChannel(next)), next + 1)
  {
  }

  /**
    Entry `n`'s worker and sender reporting done turn a log holding one
    worker and one sender `Done` per finished entry into the same log for
    one more finished entry.
   */
  lemma AcksStep(acks: seq<Ack>, keys: set<string>, pending: set<string>, n: string)
    requires n in pending
    requires forall k, r :: multiset(acks)[Ack(k, r)] == if k in keys && k !in pending then 1 else 0
    ensures forall k, r :: multiset(acks + [Ack(n, Worker), Ack(n, Sender)])[Ack(k, r)]
                        == if k in keys + {n} && k !in pending - {n} then 1 else 0
  {
    var pair := multiset{Ack(n, Worker), Ack(n, Sender)};
    assert multiset(acks + [Ack(n, Worker), Ack(n, Sender)]) == multiset(acks) + pair;
    forall k, r ensures pair[Ack(k, r)] == if k == n then 1 else 0 {
      if k == n {
        if r == Worker { assert Ack(k, r) != Ack(n, Sender); } else { assert Ack(k, r) != Ack(n, Worker); }
      }
    }
  }

  /** The worker side of the kill protocol: report done on the signal's barrier. */
  method Receive(signal: KillSignal)
    requires signal.waitGroup.counter > 0
    modifies signal.waitGroup
    ensures signal.waitGroup.counter == old(signal.waitGroup.counter) - 1
    ensures signal.waitGroup.dones == old(signal.waitGroup.dones) + 1
    ensures signal.waitGroup.added == old(signal.waitGroup.added)
    ensures signal.waitGroup.acks == old(signal.waitGroup.acks) + [Ack(signal.name, Worker)]
  {
    signal.waitGroup.Done(Ack(signal.name, Worker));
  }

  /**
    The goroutine `Close` starts for one entry: it sends the kill signal,
    the worker receives it and reports done, and the deferred `Done` of the
    goroutine follows.
   */
  method Killing(name: string, contract: Contract, wg: WaitGroup) returns (d: Delivery)
    requires contract.name == name && wg.counter >= 2
    modifies wg
    ensures d == contract.Kill(wg)
    ensures wg.counter == old(wg.counter) - 2 && wg.dones == old(wg.dones) + 2
    ensures wg.added == old(wg.added)
    ensures wg.acks == old(wg.acks) + [Ack(name, Worker), Ack(name, Sender)]
  {
    d := contract.Kill(wg);
    Receive(d.signal);
    wg.Done(Ack(name, Sender));
  }

  /**
    The loop of `Close`: every contract of `table` gets one kill signal on the
    shared barrier `wg`; the worker and the sending goroutine each report done
    once for it.
   */
  method SendAll(table: map<string, Contract>, wg: WaitGroup) returns (sent: seq<Delivery>)
    requires forall k :: k in table ==> table[k].name == k
    requires wg.counter == 2 * |table| && wg.dones == 0 && wg.acks == []
    modifies wg
    ensures wg.added == old(wg.added)
    ensures wg.counter == 0 && wg.dones == 2 * |table| && |wg.acks| == 2 * |table|
    ensures forall k, r :: multiset(wg.acks)[Ack(k, r)] == if k in table then 1 else 0
    ensures |sent| == |table|
    ensures forall i :: 0 <= i < |sent| ==>
              sent[i].signal.name in table && sent[i] == table[sent[i].signal.name].Kill(wg)
    ensures forall i, j :: 0 <= i < j < |sent| ==> sent[i].signal.name != sent[j].signal.name
    ensures forall k :: k in table ==> exists i :: 0 <= i < |sent| && sent[i].signal.name == k
  {
    sent := [];
    ghost var visited: seq<string> := [];
    var pending := table.Keys;
    while pending != {}
      invariant pending <= table.Keys
      invariant wg.counter == 2 * |pending|
      invariant wg.added == old(wg.added)
      invariant wg.dones == |wg.acks| == 2 * (|table| - |pending|)
      invariant forall k, r :: multiset(wg.acks)[Ack(k, r)] == if k in table && k !in pending then 1 else 0
      invariant |sent| == |visited| == |table| - |pending|
      invariant forall i :: 0 <= i < |visited| ==>
                  visited[i] in table && sent[i] == table[visited[i]].Kill(wg) && sent[i].signal.name == visited[i]
      invariant forall i, j :: 0 <= i < j < |visited| ==> visited[i] != visited[j]
      invariant forall k :: k in table ==> (k in visited <==> k !in pending)
      decreases pending
    {
      var n :| n in pending;
      ghost var before := wg.acks;
      var d := Killing(n, table[n], wg);
      sent := sent + [d];
      visited := visited + [n];
      AcksStep(before, table.Keys, pending, n);
      pending := pending - {n};
    }
    forall k | k in table ensures exists i :: 0 <= i < |sent| && sent[i].signal.name == k {
      var i :| 0 <= i < |visited| && visited[i] == k;
      assert sent[i].signal.name == k;
    }
  }

  /** The registry (`Targets`): a map from name to contract, updated in place. */
  class Targets {
    var entries: map<string, Contract>
    /** The id the next `Start` gives its kill channel. */
    var nextChannel: nat
    /** Every worker started, in order of the `Start` calls. */
    ghost var starts: seq<Target>
    /** The names registered so far, in order. */
    ghost var names: seq<string>
    /** The names reported as already used, in order. */
    ghost var warnings: seq<string>

    /**
      The table is well formed, one channel was started per registration,
      and the table is the replay of every registration so far.
     */
    ghost predicate Valid()
      reads this
    {
      && WellFormed(entries, nextChannel)
      && |starts| == nextChannel
      && |names| == nextChannel
      && entries == Replay(map[], 0, names)
    }

    /** `NewTargets`: an empty registry. */
    constructor ()
      ensures Valid()
      ensures entries == map[] && nextChannel == 0
      ensures starts == [] && names == [] && warnings == []
    {
      entries := map[];
      nextChannel := 0;
      starts := [];
      names := [];
      warnings := [];
    }

    /** Starts worker `m`, which hands back a new unbuffered kill channel. */
    method Start(m: Target) returns (ch: KillChannel)
      modifies this
      ensures ch == NewKillChannel(old(nextChannel))
      ensures nextChannel == old(nextChannel) + 1 && starts == old(starts) + [m]
      ensures entries == old(entries) && names == old(names) && warnings == old(warnings)
    {
      ch := NewKillChannel(nextChannel);
      nextChannel := nextChannel + 1;
      starts := starts + [m];
    }

    /**
      Registers `m` under `name`: starts it once, warns when `name` is
      already taken, and overwrites the entry for `name`.
     */
    method Put(name: string, m: Target)
      requires Valid()
      modifies this
      ensures Valid()
      ensures entries == Registered(old(entries), name, NewKillChannel(old(nextChannel)))
      ensures entries[name] == Contract(name, NewKillChannel(old(nextChannel)))
      ensures forall k :: k in old(entries) && k != name ==> k in entries && entries[k] == old(entries)[k]
      ensures |entries| == if name in old(entries) then |old(entries)| else |old(entries)| + 1
      ensures nextChannel == old(nextChannel) + 1 && starts == old(starts) + [m]
      ensures names == old(names) + [name]
      ensures warnings == if name in old(entries) then old(warnings) + [name] else old(warnings)
    {
      var alreadyHasTarget := name in entries;
      if alreadyHasTarget {
        warnings := warnings + [name];
      }
      ghost var table, next, log := entries, nextChannel, names;
      RegisteredFacts(table, name, NewKillChannel(next));
      RegisteredWellFormed(table, next, name);
      ReplaySnoc(map[], 0, log, name);
      assert Replay(map[], 0, log + [name]) == Registered(table, name, NewKillChannel(next));
      var ch := Start(m);
      entries := Registered(entries, name, ch);
      names := names + [name];
    }

    /** Registers a named target under its own name. */
    method Add(m: Target)
      requires Valid()
      requires m.name.Some?
      modifies this
      ensures Valid()
      ensures entries == Registered(old(entries), m.name.value, NewKillChannel(old(nextChannel)))
      ensures nextChannel == old(nextChannel) + 1 && starts == old(starts) + [m]
      ensures names == old(names) + [m.name.value]
      ensures warnings == if m.name.value in old(entries) then old(warnings) + [m.name.value] else old(warnings)
    {
      Put(m.name.value, m);
    }

    /**
      Registers `m` under its own name when it has one, else under the
      `generated` name (a UUID in the source).
     */
    method AddTarget(m: Target, generated: string)
      requires Valid()
      modifies this
      ensures Valid()
      ensures m.name.Some? ==> entries == Registered(old(entries), m.name.value, NewKillChannel(old(nextChannel)))
      ensures m.name.None? ==> entries == Registered(old(entries), generated, NewKillChannel(old(nextChannel)))
      ensures m.name.None? && generated !in old(entries) ==> |entries| == |old(entries)| + 1
      ensures nextChannel == old(nextChannel) + 1 && starts == old(starts) + [m]
      ensures names == old(names) + [ChosenName(m, generated)]
      ensures warnings == if ChosenName(m, generated) in old(entries)
                          then old(warnings) + [ChosenName(m, generated)] else old(warnings)
    {
      match m.name
      case Some(n) =>
        Put(n, m);
      case None =>
        Put(generated, m);
    }

    /**
      Adds `t` unless its construction failed: a present `err` is the
      panic, returned here, and nothing is started or registered.
     */
    method AddOrPanic(t: Target, err: Option<Error>, generated: string) returns (panicked: Option<Error>)
      requires Valid()
      modifies this
      ensures Valid()
      ensures panicked == err
      ensures err.Some? ==> entries == old(entries) && nextChannel == old(nextChannel)
      ensures err.Some? ==> starts == old(starts) && names == old(names) && warnings == old(warnings)
      ensures err.None? ==> entries == Registered(old(entries), ChosenName(t, generated), NewKillChannel(old(nextChannel)))
      ensures err.None? ==> nextChannel == old(nextChannel) + 1 && starts == old(starts) + [t]
      ensures err.None? ==> names == old(names) + [ChosenName(t, generated)]
      ensures err.None? ==> warnings == if ChosenName(t, generated) in old(entries)
                                        then old(warnings) + [ChosenName(t, generated)] else old(warnings)
    {
      if err.Some? {
        panicked := err;
        return;
      }
      AddTarget(t, generated);
      panicked := None;
    }

    /**
      Sends every registered target exactly one kill signal carrying its
      own name and the shared barrier, which starts at twice the number of
      entries and receives two `Done` calls per entry (the worker's and the
      sender's), so the final wait is released and `Close` returns nil.
     */
    method Close() returns (err: Option<Error>, sent: seq<Delivery>, wg: WaitGroup)
      requires Valid()
      ensures err == None
      ensures fresh(wg)
      ensures wg.added == 2 * |entries|
      ensures wg.counter == 0 && wg.dones == 2 * |entries| && |wg.acks| == 2 * |entries|
      ensures forall k, r :: multiset(wg.acks)[Ack(k, r)] == if k in entries then 1 else 0
      ensures |sent| == |entries|
      ensures forall i :: 0 <= i < |sent| ==>
                sent[i].signal.name in entries && sent[i] == entries[sent[i].signal.name].Kill(wg)
      ensures forall i, j :: 0 <= i < j < |sent| ==> sent[i].signal.name != sent[j].signal.name
      ensures forall k :: k in entries ==> exists i :: 0 <= i < |sent| && sent[i].signal.name == k
    {
      wg := new WaitGroup();
      wg.Add(|entries| * 2);
      sent := SendAll(entries, wg);
      wg.Wait();
      err := None;
    }
  }
}
