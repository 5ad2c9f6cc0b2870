/**
 The service watcher as an object. Each method is one call that has the lock for as long as it needs
 it; the transition system splits the same calls at every await.
 */
module ServiceWatchers {
  import opened Wrappers
  import opened Manifests
  import opened Clusters
  import opened Watchers
  import opened WatcherRuns
  import opened ServiceOrigins

  /** watch as a whole: created tells whether the stream and the consumer could be had. */
  function WatchCall(s: Shared, lattice: string, ns: string, created: bool): Shared {
    if lattice in s.watchers then AddNamespace(s, lattice, ns)
    else if created then Install(s, lattice, ns)
    else s
  }

  /** The applications of a reconcile call, with the answers to the requests for their manifests. */
  function ReconcileApps(setup: Setup, s: Shared, w: Watcher, apps: seq<App>, answers: seq<Option<Manifest>>): Shared
    requires |apps| == |answers|
    decreases |apps|
  {
    if apps == [] then s
    else ReconcileApps(setup, ReconcileApp(setup, s, w, apps[0], answers[0]), w, apps[1..], answers[1..])
  }

  function ReconcileCall(setup: Setup, s: Shared, lattice: string, apps: seq<App>,
                         answers: seq<Option<Manifest>>): Shared
    requires |apps| == |answers|
  {
    if lattice in s.watchers then ReconcileApps(setup, s, s.watchers[lattice], apps, answers) else s
  }

  class ServiceWatcher {
    const setup: Setup
    var watchers: map<string, Watcher>
    var tasks: seq<Task>
    var cancelled: set<nat>
    var sent: seq<Command>

    constructor (setup: Setup)
      ensures Valid() && this.setup == setup && Now() == Start(setup).shared
    {
      this.setup := setup;
      watchers, tasks, cancelled, sent := map[], [], {}, [];
    }

    function Now(): Shared
      reads this
    {
      Shared(watchers, tasks, cancelled, sent)
    }

    /** Entries, tasks and tokens fit together. */
    ghost predicate Valid()
      reads this
    {
      EntryInv(Now()) && TaskInv(Now())
    }

    /** Dropping a watcher cancels its token. */
    method Drop(w: Watcher)
      modifies `cancelled
      ensures cancelled == old(cancelled) + {w.shutdown}
    {
      cancelled := cancelled + {w.shutdown};
    }

    /** The spawned block of a task comes to its end: its clone of the watcher is dropped. */
    method EndTask(task: nat)
      requires Valid() && RunningTask(Now(), task)
      modifies this
      ensures Valid() && Now() == StopTask(old(Now()), task)
    {
      StopTaskKeeps(Now(), task);
      var dup := tasks[task].dup;
      tasks := tasks[task := Task(dup, false)];
      Drop(dup);
    }

    /** A watcher with a fresh token, and the task that owns a clone of it. */
    method NewWatcher(lattice: string, ns: string) returns (w: Watcher)
      requires Valid()
      modifies `tasks
      ensures w.shutdown !in cancelled
      ensures forall l | l in watchers :: watchers[l].shutdown != w.shutdown
      ensures w == Watcher({ns}, lattice, old(|tasks|))
      ensures tasks == old(tasks) + [Task(w, true)]
    {
      w := Watcher({ns}, lattice, |tasks|);
      var dup := w;
      tasks := tasks + [Task(dup, true)];
    }

    method HandleManifestPublished(w: Watcher, m: Manifest)
      modifies `sent
      ensures Now() == Publish(setup, old(Now()), w, m)
    {
      var server := HttpServerComponent(m);
      if server.Some? {
        var port := setup.parse(server.value.address);
        if port.Some? {
          var params := ServiceParams(m.name, w.namespaces, w.lattice, port.value, server.value.labels);
          sent := sent + [UpsertService(params)];
        }
      }
    }

    method HandleManifestUnpublished(w: Watcher, name: string)
      modifies `sent
      ensures Now() == Unpublish(old(Now()), w, name)
    {
      sent := sent + [RemoveService(name, w.namespaces)];
    }

    method Watch(lattice: string, ns: string, streamOk: bool, consumerOk: bool) returns (ok: bool)
      requires Valid()
      modifies this
      ensures Valid()
      ensures Now() == WatchCall(old(Now()), lattice, ns, streamOk && consumerOk)
      ensures ok <==> lattice in old(watchers) || (streamOk && consumerOk)
    {
      if lattice in watchers {
        AddKeeps(Now(), lattice, ns);
        var w := watchers[lattice];
        watchers := watchers[lattice := w.(namespaces := w.namespaces + {ns})];
        return true;
      }
      if !streamOk {
        return false;
      }
      if !consumerOk {
        return false;
      }
      InstallKeeps(Now(), lattice, ns);
      var w := NewWatcher(lattice, ns);
      watchers := watchers[lattice := w];
      return true;
    }

    method StopWatching(lattice: string, ns: string)
      requires Valid()
      modifies this
      ensures Valid() && Now() == Stop(old(Now()), lattice, ns)
    {
      StopKeeps(Now(), lattice, ns);
      if lattice in watchers {
        var w := watchers[lattice];
        w := w.(namespaces := w.namespaces - {ns});
        watchers := watchers[lattice := w];
        if w.namespaces == {} {
          watchers := watchers - {lattice};
          Drop(w);
          assert watchers == old(watchers) - {lattice};
        }
        sent := sent + [RemoveServices({ns})];
      }
    }

    method ReconcileServices(apps: seq<App>, lattice: string, answers: seq<Option<Manifest>>)
      requires Valid() && |apps| == |answers|
      modifies `sent
      ensures Valid()
      ensures Now() == ReconcileCall(setup, old(Now()), lattice, apps, answers)
    {
      if lattice in watchers {
        var w := watchers[lattice];
        for i := 0 to |apps|
          invariant ReconcileApps(setup, old(Now()), w, apps, answers)
                 == ReconcileApps(setup, Now(), w, apps[i..], answers[i..])
        {
          assert apps[i..][1..] == apps[i + 1..] && answers[i..][1..] == answers[i + 1..];
          if !apps[i].deployed {
            continue;
          }
          match answers[i] {
            case Some(m) => HandleManifestPublished(w, m);
            case None =>
          }
        }
      }
    }
  }

  // ---------------------------------------------------------------- what a reconcile call sends

  /** Application i is deployed, its manifest could be fetched, and the manifest asks for a service. */
  predicate IsPublished(setup: Setup, apps: seq<App>, answers: seq<Option<Manifest>>, i: int) {
    && 0 <= i < |apps| && i < |answers|
    && apps[i].deployed && answers[i].Some? && Usable(setup, answers[i].value)
  }

  /** The command upserts the service the manifest asks for, in all namespaces of the watcher. */
  predicate UpsertsFor(setup: Setup, w: Watcher, m: Manifest, c: Command) {
    && Usable(setup, m) && c.UpsertService?
    && c.params.name == m.name && c.params.namespaces == w.namespaces && c.params.latticeId == w.lattice
    && AppService(c.params) == ServiceOf(setup, m)
  }

  /** The positions from i on of the published applications, in order. */
  ghost predicate ListsPublished(setup: Setup, apps: seq<App>, answers: seq<Option<Manifest>>, i: nat, at: seq<nat>) {
    && (forall n :: n in at <==> i <= n && IsPublished(setup, apps, answers, n))
    && (forall j, k | 0 <= j < k < |at| :: at[j] < at[k])
  }

  /** The commands are those for these positions, one for one. */
  ghost predicate UpsertsAt(setup: Setup, w: Watcher, answers: seq<Option<Manifest>>, commands: seq<Command>,
                            at: seq<nat>) {
    && |commands| == |at|
    && forall k | 0 <= k < |at| ::
         at[k] < |answers| && answers[at[k]].Some? && UpsertsFor(setup, w, answers[at[k]].value, commands[k])
  }

  lemma OneMorePosition(setup: Setup, apps: seq<App>, answers: seq<Option<Manifest>>, i: nat, at: seq<nat>)
    requires ListsPublished(setup, apps, answers, i + 1, at) && IsPublished(setup, apps, answers, i)
    ensures ListsPublished(setup, apps, answers, i, [i] + at)
  {
    var all := [i] + at;
    forall n ensures n in all <==> i <= n && IsPublished(setup, apps, answers, n) {
      assert n in all <==> n == i || n in at;
    }
    assert forall k | 0 <= k < |at| :: at[k] in at;
  }

  /** One application: an upsert if it is published, and nothing otherwise. */
  lemma OneApp(setup: Setup, s: Shared, w: Watcher, apps: seq<App>, answers: seq<Option<Manifest>>, i: nat)
    returns (sent: seq<Command>)
    requires i < |apps| == |answers|
    ensures ReconcileApp(setup, s, w, apps[i], answers[i]) == s.(sent := s.sent + sent)
    ensures if IsPublished(setup, apps, answers, i)
            then |sent| == 1 && UpsertsFor(setup, w, answers[i].value, sent[0])
            else sent == []
  {
    sent := [];
    if IsPublished(setup, apps, answers, i) {
      sent := [PublishedCommand(setup, w, answers[i].value).value];
    } else {
      assert s.sent + [] == s.sent;
    }
  }

  lemma ReconcileStep(setup: Setup, s: Shared, w: Watcher, apps: seq<App>, answers: seq<Option<Manifest>>, i: nat)
    requires i < |apps| == |answers|
    ensures ReconcileApps(setup, s, w, apps[i..], answers[i..])
         == ReconcileApps(setup, ReconcileApp(setup, s, w, apps[i], answers[i]), w, apps[i + 1..], answers[i + 1..])
  {
    assert apps[i..][1..] == apps[i + 1..] && answers[i..][1..] == answers[i + 1..];
  }

  lemma {:induction false} ReconcileFrom(setup: Setup, s: Shared, w: Watcher, apps: seq<App>,
                                         answers: seq<Option<Manifest>>, i: nat)
    returns (commands: seq<Command>, at: seq<nat>)
    requires i <= |apps| == |answers|
    ensures ReconcileApps(setup, s, w, apps[i..], answers[i..]) == s.(sent := s.sent + commands)
    ensures ListsPublished(setup, apps, answers, i, at) && UpsertsAt(setup, w, answers, commands, at)
    decreases |apps| - i
  {
    if i == |apps| {
      commands, at := [], [];
      SendNothing(s);
    } else {
      ReconcileStep(setup, s, w, apps, answers, i);
      var first := OneApp(setup, s, w, apps, answers, i);
      var later, from := ReconcileFrom(setup, s.(sent := s.sent + first), w, apps, answers, i + 1);
      commands := first + later;
      SendBoth(s, first, later);
      at := AppsJoin(setup, w, apps, answers, i, first, later, from);
    }
  }

  lemma SendNothing(s: Shared)
    ensures s.(sent := s.sent + []) == s
  {
  }

  lemma SendBoth(s: Shared, a: seq<Command>, b: seq<Command>)
    ensures s.(sent := s.sent + a).(sent := s.sent + a + b) == s.(sent := s.sent + (a + b))
  {
    assert s.sent + a + b == s.sent + (a + b);
  }

  lemma AppsJoin(setup: Setup, w: Watcher, apps: seq<App>, answers: seq<Option<Manifest>>, i: nat,
                 first: seq<Command>, later: seq<Command>, from: seq<nat>)
    returns (at: seq<nat>)
    requires i < |apps| == |answers|
    requires ListsPublished(setup, apps, answers, i + 1, from) && UpsertsAt(setup, w, answers, later, from)
    requires if IsPublished(setup, apps, answers, i)
             then |first| == 1 && UpsertsFor(setup, w, answers[i].value, first[0])
             else first == []
    ensures ListsPublished(setup, apps, answers, i, at) && UpsertsAt(setup, w, answers, first + later, at)
  {
    if IsPublished(setup, apps, answers, i) {
      OneMorePosition(setup, apps, answers, i, from);
      OneMoreUpsert(setup, w, answers, i, first[0], later, from);
      assert first + later == [first[0]] + later;
      at := [i] + from;
    } else {
      assert first + later == later;
      at := from;
    }
  }

  lemma OneMoreUpsert(setup: Setup, w: Watcher, answers: seq<Option<Manifest>>, i: nat, c: Command,
                      commands: seq<Command>, at: seq<nat>)
    requires UpsertsAt(setup, w, answers, commands, at)
    requires i < |answers| && answers[i].Some? && UpsertsFor(setup, w, answers[i].value, c)
    ensures UpsertsAt(setup, w, answers, [c] + commands, [i] + at)
  {
  }

  /**
   A reconcile call of a watched lattice sends one upsert for each deployed application whose manifest
   could be fetched and asks for a service, in the order of the applications, and changes nothing else.
   */
  lemma {:induction false} ReconcilePublishesAll(setup: Setup, s: Shared, lattice: string, apps: seq<App>,
                                                 answers: seq<Option<Manifest>>)
    returns (commands: seq<Command>, at: seq<nat>)
    requires |apps| == |answers| && lattice in s.watchers
    ensures ReconcileCall(setup, s, lattice, apps, answers) == s.(sent := s.sent + commands)
    ensures ListsPublished(setup, apps, answers, 0, at)
    ensures UpsertsAt(setup, s.watchers[lattice], answers, commands, at)
  {
    assert apps[0..] == apps && answers[0..] == answers;
    commands, at := ReconcileFrom(setup, s, s.watchers[lattice], apps, answers, 0);
  }

  // ---------------------------------------------------------------- calls are runs of steps

  /** Performs enabled actions one after the other. */
  ghost predicate Leads(setup: Setup, s: State, actions: seq<Action>, s': State)
    decreases |actions|
  {
    if actions == [] then s == s'
    else Enabled(s, actions[0]) && Leads(setup, Next(setup, s, actions[0]), actions[1..], s')
  }

  /** The actions of a watch call, from taking the lock to returning. */
  function WatchActions(s: Shared, id: nat, lattice: string, ns: string, streamOk: bool,
                        consumerOk: bool): seq<Action> {
    if lattice in s.watchers then [BeginWatch(id, lattice, ns)]
    else if !streamOk then [BeginWatch(id, lattice, ns), StreamReady(id, false)]
    else [BeginWatch(id, lattice, ns), StreamReady(id, true), ConsumerReady(id, consumerOk)]
  }

  /** A watch call on a free lock is the steps of the transition system, and leaves the lock free. */
  lemma WatchIsSteps(setup: Setup, s: State, id: nat, lattice: string, ns: string, streamOk: bool, consumerOk: bool)
    requires CanWrite(s.lock) && id !in s.calls
    ensures Leads(setup, s, WatchActions(s.shared, id, lattice, ns, streamOk, consumerOk),
                  s.(shared := WatchCall(s.shared, lattice, ns, streamOk && consumerOk)))
  {
    var goal := s.(shared := WatchCall(s.shared, lattice, ns, streamOk && consumerOk));
    var s1 := Next(setup, s, BeginWatch(id, lattice, ns));
    if lattice in s.shared.watchers {
      assert Leads(setup, s1, [], goal);
    } else if !streamOk {
      var s2 := Next(setup, s1, StreamReady(id, false));
      assert s2.calls == s.calls;
      assert Leads(setup, s2, [], goal);
      assert Leads(setup, s1, [StreamReady(id, false)], goal);
    } else {
      var s2 := Next(setup, s1, StreamReady(id, true));
      var s3 := Next(setup, s2, ConsumerReady(id, consumerOk));
      assert s3.calls == s.calls;
      assert Leads(setup, s3, [], goal);
      assert Leads(setup, s2, [ConsumerReady(id, consumerOk)], goal);
      assert [StreamReady(id, true), ConsumerReady(id, consumerOk)][1..] == [ConsumerReady(id, consumerOk)];
      assert Leads(setup, s1, [StreamReady(id, true), ConsumerReady(id, consumerOk)], goal);
    }
    var actions := WatchActions(s.shared, id, lattice, ns, streamOk, consumerOk);
    assert actions[0] == BeginWatch(id, lattice, ns);
    assert Leads(setup, s1, actions[1..], goal);
  }

  /** One step for each application, then the return. */
  function ReconcileActions(id: nat, answers: seq<Option<Manifest>>): seq<Action> {
    if answers == [] then [EndReconcile(id)]
    else [ReconcileNext(id, answers[0])] + ReconcileActions(id, answers[1..])
  }

  lemma {:induction false} ReconcileRestIsSteps(setup: Setup, s: State, id: nat, w: Watcher, apps: seq<App>,
                                                answers: seq<Option<Manifest>>)
    requires |apps| == |answers|
    requires id in s.calls && s.calls[id] == Reconciling(w, apps)
    ensures Leads(setup, s, ReconcileActions(id, answers),
                  Return(s.(shared := ReconcileApps(setup, s.shared, w, apps, answers)), id))
    decreases |apps|
  {
    if apps != [] {
      var s1 := Next(setup, s, ReconcileNext(id, answers[0]));
      ReconcileRestIsSteps(setup, s1, id, w, apps[1..], answers[1..]);
      assert s1.calls - {id} == s.calls - {id};
      assert ReconcileActions(id, answers)[1..] == ReconcileActions(id, answers[1..]);
    } else {
      assert Leads(setup, Return(s, id), [], Return(s, id));
      assert [EndReconcile(id)][1..] == [];
    }
  }

  /** A reconcile call is its steps, whoever else is reading. */
  lemma ReconcileIsSteps(setup: Setup, s: State, id: nat, lattice: string, apps: seq<App>,
                         answers: seq<Option<Manifest>>)
    requires |apps| == |answers|
    requires CanRead(s.lock) && id !in s.calls && id !in s.lock.readers
    ensures var begin := [BeginReconcile(id, lattice, apps)];
            Leads(setup, s, if lattice in s.shared.watchers then begin + ReconcileActions(id, answers) else begin,
                  s.(shared := ReconcileCall(setup, s.shared, lattice, apps, answers)))
  {
    var begin := BeginReconcile(id, lattice, apps);
    var s1 := Next(setup, s, begin);
    var goal := s.(shared := ReconcileCall(setup, s.shared, lattice, apps, answers));
    if lattice in s.shared.watchers {
      ReconcileRestIsSteps(setup, s1, id, s.shared.watchers[lattice], apps, answers);
      assert s1.calls - {id} == s.calls;
      assert s1.lock.readers - {id} == s.lock.readers;
      assert ([begin] + ReconcileActions(id, answers))[1..] == ReconcileActions(id, answers);
    } else {
      assert [begin][1..] == [];
      assert Leads(setup, s1, [], goal);
    }
  }
}
