/**
  The scenarios of the registry's own tests, checked against the contracts of
  `Hitman.Targets` alone. Worker names and generated UUIDs are parameters;
  the example workers of the tests are `Target` values with or without a
  name.
 */
module HitmanTest {
  import opened Hitman

  /**
    Registers four distinct named workers in a new registry: the table is
    the replay of the four registrations, so it has four entries.
   */
  method RegisterFour(a: string, b: string, c: string, d: string) returns (hits: Targets)
    requires a != b && a != c && a != d && b != c && b != d && c != d
    ensures fresh(hits) && hits.Valid()
    ensures hits.names == [a, b, c, d]
    ensures hits.entries == Replay(map[], 0, [a, b, c, d])
    ensures |hits.entries| == 4
  {
    hits := new Targets();
    hits.Add(Target(Some(a)));
    hits.Add(Target(Some(b)));
    hits.Add(Target(Some(c)));
    ghost var three := hits.names;
    hits.Add(Target(Some(d)));
    assert three == [a, b, c] && hits.names == three + [d];
    FourDistinctNames(a, b, c, d);
  }

  /** Replaying four distinct names on an empty table gives four entries. */
  lemma FourDistinctNames(a: string, b: string, c: string, d: string)
    requires a != b && a != c && a != d && b != c && b != d && c != d
    ensures |Replay(map[], 0, [a, b, c, d])| == 4
  {
    ReplayFreshSize(map[], 0, [a, b, c, d]);
  }

  /** Four named workers are registered, then all of them are killed. */
  method KillFourWorkers(a: string, b: string, c: string, d: string)
    returns (size: nat, err: Option<Error>, killed: nat, dones: nat)
    requires a != b && a != c && a != d && b != c && b != d && c != d
    ensures size == 4 && err == None && killed == 4 && dones == 8
  {
    var hits := RegisterFour(a, b, c, d);
    size := |hits.entries|;
    var sent, wg;
    err, sent, wg := hits.Close();
    killed := |sent|;
    dones := wg.dones;
  }

  /** A registered worker can be looked up under its own name. */
  method LookupByName(name: string) returns (size: nat, found: bool, entry: Contract)
    ensures size == 1 && found
    ensures entry.name == name && entry.done.capacity == 0 && entry.done.buffered == []
  {
    var t := new Targets();
    t.Add(Target(Some(name)));
    size := |t.entries|;
    found := name in t.entries;
    entry := t.entries[name];
  }

  /** An unnamed worker is registered under the generated name, then killed. */
  method AddUnnamed(generated: string) returns (size: nat, registered: bool, err: Option<Error>, killed: nat)
    ensures size == 1 && registered
    ensures err == None && killed == 1
  {
    var t := new Targets();
    t.AddTarget(Target(None), generated);
    size := |t.entries|;
    registered := generated in t.entries;
    var sent, wg;
    err, sent, wg := t.Close();
    killed := |sent|;
  }

  /** A worker whose construction succeeded is registered, then killed. */
  method AddOrPanicWithoutError(generated: string)
    returns (size: nat, panicked: Option<Error>, err: Option<Error>, killed: nat)
    ensures size == 1 && panicked == None
    ensures err == None && killed == 1
  {
    var t := new Targets();
    panicked := t.AddOrPanic(Target(None), None, generated);
    size := |t.entries|;
    var sent, wg;
    err, sent, wg := t.Close();
    killed := |sent|;
  }

  /** A worker whose construction failed panics with that error and is never started. */
  method AddOrPanicWithError(e: Error, generated: string) returns (size: nat, started: nat, panicked: Option<Error>)
    ensures panicked == Some(e) && size == 0 && started == 0
  {
    var t := new Targets();
    panicked := t.AddOrPanic(Target(None), Some(e), generated);
    size := |t.entries|;
    started := t.nextChannel;
  }

  /**
    Two workers under one name: both are started, the second registration
    logs exactly one warning, its channel replaces the first one's, and the
    registry holds a single entry.
   */
  method SameNameTwice(name: string) returns (size: nat, started: nat, entry: Contract, ghost warned: seq<string>)
    ensures size == 1 && started == 2
    ensures entry == Contract(name, NewKillChannel(1))
    ensures warned == [name]
  {
    var t := new Targets();
    t.Add(Target(Some(name)));
    t.Add(Target(Some(name)));
    size := |t.entries|;
    started := t.nextChannel;
    entry := t.entries[name];
    warned := t.warnings;
  }

  /** Closing an empty registry sends nothing and needs no `Done` call. */
  method CloseEmpty() returns (err: Option<Error>, killed: nat, dones: nat)
    ensures err == None && killed == 0 && dones == 0
  {
    var t := new Targets();
    var sent, wg;
    err, sent, wg := t.Close();
    killed := |sent|;
    dones := wg.dones;
  }
}
