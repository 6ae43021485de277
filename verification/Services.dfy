/** `auto_inject_service`: installs the registered services, retrying the failed ones until nothing changes. */
module Services {
  import opened Dealing
  import opened BuildHistory
  import opened Application
  import opened ServiceGraph

  /** One registrar: build, then add; the registry is untouched unless the whole of it succeeds. */
  method InstallService(app: AppBuilder, s: Service, configs: set<ConfigId>) returns (r: InjectOutcome)
    modifies app`components
    ensures r in {Installed, Failed(s), Panicked(s)}
    ensures r != Failed(s) <==> Needs(s.fields) <= old(app.components).Keys && Configured(s.fields, configs)
    ensures r == Panicked(s) ==> s.gives in old(app.components)
    ensures r == Installed ==> s.gives !in old(app.components)
    ensures app.components == if r == Installed then old(app.components)[s.gives := s.name] else old(app.components)
  {
    BuildsIff(s.fields, app.components, configs);
    if BuildService(s.fields, app.components, configs).None? {
      return Failed(s);
    }
    var ok := app.AddComponent(s.gives, s.name);
    r := if ok then Installed else Panicked(s);
  }

  /** The state of a round after `i` attempts: what is left of this round, and what waits for the next. */
  ghost predicate Round(services: seq<Service>, configs: set<ConfigId>, cs0: Components, cs: Components,
                        done0: seq<Service>, done: seq<Service>, pending: seq<Service>, i: nat,
                        nextPending: seq<Service>, progressMade: bool)
    requires i <= |pending|
  {
    && Loop(services, configs, cs0, cs, done, pending[i..] + nextPending)
    && if progressMade then |nextPending| < i
       else |nextPending| == i && done == done0 && Blocked(nextPending, ServiceGraph.Ready(cs.Keys, configs))
  }

  /** The body of the inner loop. */
  method TryNext(app: AppBuilder, pending: seq<Service>, i: nat, nextPending: seq<Service>, progressMade: bool,
                 configs: set<ConfigId>, ghost services: seq<Service>, ghost cs0: Components,
                 ghost done0: seq<Service>, ghost done: seq<Service>)
    returns (r: InjectOutcome, nextPending': seq<Service>, progressMade': bool, ghost done': seq<Service>)
    requires i < |pending| && DistinctTypes(services)
    requires Round(services, configs, cs0, app.components, done0, done, pending, i, nextPending, progressMade)
    modifies app`components
    ensures r != Installed ==> r.Panicked? && InjectResult(services, configs, cs0, app.components, done', r)
    ensures r == Installed ==>
      Round(services, configs, cs0, app.components, done0, done', pending, i + 1, nextPending', progressMade')
  {
    nextPending', progressMade', done' := nextPending, progressMade, done;
    var registrar := pending[i];
    ghost var cs, rest := app.components, pending[i + 1..] + nextPending;
    Visiting(pending, i, nextPending);
    r := InstallService(app, registrar, configs);
    Visited(services, configs, cs0, cs, done, registrar, rest, r, app.components);
    match r
    case Installed =>
      done' := done + [registrar];
      progressMade' := true;
    case Failed(_) =>
      r := Installed;
      if !progressMade {
        BlockedSnoc(nextPending, ServiceGraph.Ready(cs.Keys, configs), registrar);
      }
      nextPending' := nextPending + [registrar];
    case Panicked(_) =>
  }

  /** One round: every pending registrar is tried once. */
  method InjectRound(app: AppBuilder, pending: seq<Service>, configs: set<ConfigId>,
                     ghost services: seq<Service>, ghost cs0: Components, ghost done0: seq<Service>)
    returns (r: InjectOutcome, nextPending: seq<Service>, progressMade: bool, ghost done: seq<Service>,
             ghost attempts: nat)
    requires DistinctTypes(services) && Loop(services, configs, cs0, app.components, done0, pending)
    modifies app`components
    ensures r != Installed ==> r.Panicked? && InjectResult(services, configs, cs0, app.components, done, r)
    ensures r == Installed ==> Loop(services, configs, cs0, app.components, done, nextPending)
    ensures r == Installed && progressMade ==> |nextPending| < |pending|
    ensures r == Installed && !progressMade ==>
      && |nextPending| == |pending| && done == done0
      && Blocked(nextPending, ServiceGraph.Ready(app.components.Keys, configs))
    ensures attempts <= |pending|
  {
    r, nextPending, progressMade, done, attempts := Installed, [], false, done0, 0;
    assert pending[0..] + nextPending == pending;
    for i := 0 to |pending|
      invariant r == Installed && attempts == i
      invariant Round(services, configs, cs0, app.components, done0, done, pending, i, nextPending, progressMade)
    {
      attempts := attempts + 1;
      r, nextPending, progressMade, done :=
        TryNext(app, pending, i, nextPending, progressMade, configs, services, cs0, done0, done);
      if r != Installed {
        return;
      }
    }
    assert pending[|pending|..] + nextPending == nextPending;
  }

  /** `auto_inject_service`: rounds over the pending registrars until one installs nothing. */
  method AutoInject(app: AppBuilder, registrars: seq<Service>, configs: set<ConfigId>)
    returns (r: InjectOutcome, ghost done: seq<Service>, ghost attempts: nat)
    requires NoRepeats(registrars) && DistinctTypes(registrars)
    modifies app`components
    ensures InjectResult(registrars, configs, old(app.components), app.components, done, r)
    ensures 2 * attempts <= |registrars| * (|registrars| + 1) + 2
  {
    ghost var total := |registrars|;
    TriangleIs(total);
    var pending := registrars;
    done, attempts := [], 0;
    while pending != []
      invariant Loop(registrars, configs, old(app.components), app.components, done, pending)
      invariant attempts + Triangle(|pending|) <= Triangle(total)
      decreases |pending|
    {
      ghost var tried: nat, left := 0, |pending|;
      var progressMade;
      r, pending, progressMade, done, tried :=
        InjectRound(app, pending, configs, registrars, old(app.components), done);
      attempts := attempts + tried;
      if r != Installed {
        return;
      }
      if !progressMade && pending != [] {
        InjectingStops(registrars, configs, old(app.components), app.components, done, pending);
        attempts := attempts + 1;
        r := InstallService(app, pending[0], configs);
        return;
      }
      TriangleGrows(|pending|, left);
    }
    InjectingStops(registrars, configs, old(app.components), app.components, done, pending);
    r := Installed;
  }
}
