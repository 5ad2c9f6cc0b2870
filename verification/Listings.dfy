/** Listing applications: each lattice is asked once, through the first configuration that names it. */
module Listings {
  import opened Wrappers
  import opened HostConfigs

  datatype AppSummary = AppSummary(name: string, version: string)

  /** What asking a configuration's lattice for its applications would answer. */
  type Query = HostConfig -> Result<seq<AppSummary>, string>

  /** Position i is the first configuration of its lattice. */
  predicate IsFirst(cfgs: seq<HostConfig>, i: int) {
    0 <= i < |cfgs| && forall j | 0 <= j < i :: cfgs[j].lattice != cfgs[i].lattice
  }

  /** The first configuration of each lattice, in order. */
  function FirstOfEach(cfgs: seq<HostConfig>): seq<HostConfig> {
    if cfgs == [] then []
    else
      var n := |cfgs| - 1;
      FirstOfEach(cfgs[..n]) + (if IsFirst(cfgs, n) then [cfgs[n]] else [])
  }

  /** Asks each in turn, up to the first failure. */
  function AskAll(query: Query, cfgs: seq<HostConfig>): Result<seq<AppSummary>, string> {
    if cfgs == [] then Ok([])
    else
      match AskAll(query, cfgs[..|cfgs| - 1])
      case Err(e) => Err(e)
      case Ok(before) =>
        match query(cfgs[|cfgs| - 1])
        case Err(e) => Err(e)
        case Ok(apps) => Ok(before + apps)
  }

  lemma {:induction false} AskPrefixFails(query: Query, cfgs: seq<HostConfig>, n: nat)
    requires n <= |cfgs| && AskAll(query, cfgs[..n]).Err?
    ensures AskAll(query, cfgs) == AskAll(query, cfgs[..n])
    decreases |cfgs|
  {
    if n < |cfgs| {
      assert cfgs[..|cfgs| - 1][..n] == cfgs[..n];
      AskPrefixFails(query, cfgs[..|cfgs| - 1], n);
    } else {
      assert cfgs[..n] == cfgs;
    }
  }

  lemma {:induction false} FirstOfEachPrefix(cfgs: seq<HostConfig>, n: nat)
    requires n <= |cfgs|
    ensures FirstOfEach(cfgs[..n]) <= FirstOfEach(cfgs)
    decreases |cfgs|
  {
    if n < |cfgs| {
      assert cfgs[..|cfgs| - 1][..n] == cfgs[..n];
      FirstOfEachPrefix(cfgs[..|cfgs| - 1], n);
    } else {
      assert cfgs[..n] == cfgs;
    }
  }

  function LatticesOf(cfgs: seq<HostConfig>): set<string> {
    set cfg | cfg in cfgs :: cfg.lattice
  }

  lemma OneMoreLattice(cfgs: seq<HostConfig>, n: nat)
    requires n < |cfgs|
    ensures LatticesOf(cfgs[..n + 1]) == LatticesOf(cfgs[..n]) + {cfgs[n].lattice}
    ensures IsFirst(cfgs[..n + 1], n) <==> cfgs[n].lattice !in LatticesOf(cfgs[..n])
  {
    assert cfgs[..n + 1] == cfgs[..n] + [cfgs[n]];
    assert forall j | 0 <= j < n :: cfgs[..n + 1][j] == cfgs[..n][j];
    if cfgs[n].lattice in LatticesOf(cfgs[..n]) {
      var cfg :| cfg in cfgs[..n] && cfg.lattice == cfgs[n].lattice;
      var j :| 0 <= j < n && cfgs[..n][j] == cfg;
      assert cfgs[..n + 1][j].lattice == cfgs[n].lattice;
    }
    forall j | 0 <= j < n ensures cfgs[j].lattice in LatticesOf(cfgs[..n]) {
      assert cfgs[..n][j] in cfgs[..n];
    }
  }

  lemma OneMoreFirst(cfgs: seq<HostConfig>, n: nat)
    requires n < |cfgs|
    ensures FirstOfEach(cfgs[..n + 1])
         == FirstOfEach(cfgs[..n]) + (if cfgs[n].lattice in LatticesOf(cfgs[..n]) then [] else [cfgs[n]])
  {
    assert cfgs[..n + 1][..n] == cfgs[..n];
    OneMoreLattice(cfgs, n);
  }

  lemma OneMoreAsked(query: Query, cfgs: seq<HostConfig>, cfg: HostConfig, apps: seq<AppSummary>)
    requires AskAll(query, cfgs) == Ok(apps)
    ensures AskAll(query, cfgs + [cfg])
         == match query(cfg) case Err(e) => Err(e) case Ok(found) => Ok(apps + found)
  {
    assert (cfgs + [cfg])[..|cfgs|] == cfgs;
  }

  /** One turn of the loop: what it has asked, and what a failure would mean for the whole. */
  lemma OneTurn(query: Query, cfgs: seq<HostConfig>, n: nat, asked: seq<HostConfig>, apps: seq<AppSummary>)
    requires n < |cfgs| && asked == FirstOfEach(cfgs[..n]) && AskAll(query, asked) == Ok(apps)
    ensures LatticesOf(cfgs[..n + 1]) == LatticesOf(cfgs[..n]) + {cfgs[n].lattice}
    ensures cfgs[n].lattice in LatticesOf(cfgs[..n]) ==> FirstOfEach(cfgs[..n + 1]) == asked
    ensures cfgs[n].lattice !in LatticesOf(cfgs[..n]) ==>
              && FirstOfEach(cfgs[..n + 1]) == asked + [cfgs[n]]
              && asked + [cfgs[n]] <= FirstOfEach(cfgs)
              && match query(cfgs[n])
                 case Ok(found) => AskAll(query, asked + [cfgs[n]]) == Ok(apps + found)
                 case Err(e) => AskAll(query, FirstOfEach(cfgs)) == Err(e)
  {
    OneMoreLattice(cfgs, n);
    OneMoreFirst(cfgs, n);
    if cfgs[n].lattice !in LatticesOf(cfgs[..n]) {
      var more := asked + [cfgs[n]];
      OneMoreAsked(query, asked, cfgs[n], apps);
      FirstOfEachPrefix(cfgs, n + 1);
      if query(cfgs[n]).Err? {
        assert FirstOfEach(cfgs)[..|more|] == more;
        AskPrefixFails(query, FirstOfEach(cfgs), |more|);
      }
    }
  }

  /** The loop shared by the two list handlers; asked records whom it asked. */
  method ListApplications(query: Query, cfgs: seq<HostConfig>)
    returns (result: Result<seq<AppSummary>, string>, ghost asked: seq<HostConfig>)
    ensures result == AskAll(query, FirstOfEach(cfgs))
    ensures asked <= FirstOfEach(cfgs)
    ensures result.Ok? ==> asked == FirstOfEach(cfgs)
  {
    var apps: seq<AppSummary> := [];
    var lattices: set<string> := {};
    asked := [];
    for i := 0 to |cfgs|
      invariant lattices == LatticesOf(cfgs[..i])
      invariant asked == FirstOfEach(cfgs[..i])
      invariant AskAll(query, asked) == Ok(apps)
    {
      var cfg := cfgs[i];
      OneTurn(query, cfgs, i, asked, apps);
      if cfg.lattice !in lattices {
        asked := asked + [cfg];
        var answer := query(cfg);
        if answer.Err? {
          return Err(answer.error), asked;
        }
        apps := apps + answer.value;
        lattices := lattices + {cfg.lattice};
      }
    }
    assert cfgs[..|cfgs|] == cfgs;
    return Ok(apps), asked;
  }

  // ---------------------------------------------------------------- what is asked

  predicate DistinctLattices(cfgs: seq<HostConfig>) {
    forall i, j | 0 <= i < j < |cfgs| :: cfgs[i].lattice != cfgs[j].lattice
  }

  /** The configuration stands first for its lattice somewhere. */
  ghost predicate StandsFirst(cfgs: seq<HostConfig>, cfg: HostConfig) {
    exists i :: IsFirst(cfgs, i) && cfgs[i] == cfg
  }

  /** Standing first is a matter of what comes before. */
  lemma FirstInPrefix(cfgs: seq<HostConfig>, n: nat, i: nat)
    requires i < n <= |cfgs|
    ensures IsFirst(cfgs, i) <==> IsFirst(cfgs[..n], i)
  {
    assert forall j | 0 <= j <= i :: cfgs[..n][j] == cfgs[j];
  }

  lemma {:induction false} StandsFirstStep(cfgs: seq<HostConfig>, cfg: HostConfig)
    requires cfgs != []
    ensures var n := |cfgs| - 1;
            StandsFirst(cfgs, cfg) <==> StandsFirst(cfgs[..n], cfg) || (IsFirst(cfgs, n) && cfgs[n] == cfg)
  {
    var n := |cfgs| - 1;
    if StandsFirst(cfgs, cfg) {
      var i :| IsFirst(cfgs, i) && cfgs[i] == cfg;
      if i < n {
        FirstInPrefix(cfgs, n, i);
        assert cfgs[..n][i] == cfg;
      }
    }
    if StandsFirst(cfgs[..n], cfg) {
      var i :| IsFirst(cfgs[..n], i) && cfgs[..n][i] == cfg;
      FirstInPrefix(cfgs, n, i);
      assert cfgs[i] == cfg;
    }
  }

  lemma {:induction false} AskedAreFirst(cfgs: seq<HostConfig>, cfg: HostConfig)
    ensures cfg in FirstOfEach(cfgs) <==> StandsFirst(cfgs, cfg)
  {
    if cfgs != [] {
      AskedAreFirst(cfgs[..|cfgs| - 1], cfg);
      StandsFirstStep(cfgs, cfg);
    }
  }

  lemma {:induction false} AskedLattices(cfgs: seq<HostConfig>)
    ensures DistinctLattices(FirstOfEach(cfgs))
    ensures LatticesOf(FirstOfEach(cfgs)) == LatticesOf(cfgs)
  {
    if cfgs != [] {
      var n := |cfgs| - 1;
      var asked := FirstOfEach(cfgs[..n]);
      AskedLattices(cfgs[..n]);
      assert cfgs[..n + 1] == cfgs;
      OneMoreLattice(cfgs, n);
      OneMoreFirst(cfgs, n);
      if cfgs[n].lattice !in LatticesOf(cfgs[..n]) {
        NewLattice(asked, cfgs[n]);
      }
    }
  }

  lemma NewLattice(asked: seq<HostConfig>, cfg: HostConfig)
    requires DistinctLattices(asked) && cfg.lattice !in LatticesOf(asked)
    ensures DistinctLattices(asked + [cfg])
    ensures LatticesOf(asked + [cfg]) == LatticesOf(asked) + {cfg.lattice}
  {
    forall i | 0 <= i < |asked| ensures asked[i].lattice in LatticesOf(asked) {
      assert asked[i] in asked;
    }
    var more := asked + [cfg];
    assert forall c :: c in more <==> c in asked || c == cfg;
  }

  /** Each lattice is asked once, through its first configuration, and none is left out. */
  lemma {:induction false} EachLatticeOnce(cfgs: seq<HostConfig>)
    ensures DistinctLattices(FirstOfEach(cfgs))
    ensures LatticesOf(FirstOfEach(cfgs)) == LatticesOf(cfgs)
    ensures forall cfg :: cfg in FirstOfEach(cfgs) <==> StandsFirst(cfgs, cfg)
  {
    AskedLattices(cfgs);
    forall cfg ensures cfg in FirstOfEach(cfgs) <==> StandsFirst(cfgs, cfg) {
      AskedAreFirst(cfgs, cfg);
    }
  }

  /** Asking fails exactly if one of those asked fails. */
  lemma {:induction false} AskFailsIff(query: Query, cfgs: seq<HostConfig>)
    ensures AskAll(query, cfgs).Err? <==> exists cfg :: cfg in cfgs && query(cfg).Err?
  {
    if cfgs != [] {
      var n := |cfgs| - 1;
      AskFailsIff(query, cfgs[..n]);
      assert cfgs == cfgs[..n] + [cfgs[n]];
    }
  }

  /** A listing fails exactly if the first configuration of some lattice cannot be asked. */
  lemma {:induction false} ListingFailsIff(query: Query, cfgs: seq<HostConfig>)
    ensures AskAll(query, FirstOfEach(cfgs)).Err? <==> exists i :: IsFirst(cfgs, i) && query(cfgs[i]).Err?
  {
    EachLatticeOnce(cfgs);
    AskFailsIff(query, FirstOfEach(cfgs));
    if i :| IsFirst(cfgs, i) && query(cfgs[i]).Err? {
      assert StandsFirst(cfgs, cfgs[i]);
    }
  }

  // ---------------------------------------------------------------- the answer, position by position

  /** No configuration before position i has its lattice. */
  predicate FirstOfLattice(cfgs: seq<HostConfig>, i: int) {
    0 <= i < |cfgs| && forall j | 0 <= j < |cfgs| :: cfgs[j].lattice == cfgs[i].lattice ==> i <= j
  }

  /** An application: positions of the configuration and in the answer for its lattice. */
  datatype Place = Place(config: nat, app: nat)

  predicate Precedes(a: Place, b: Place) {
    a.config < b.config || (a.config == b.config && a.app < b.app)
  }

  predicate IsListed(query: Query, cfgs: seq<HostConfig>, n: nat, s: Place) {
    && s.config < n && FirstOfLattice(cfgs, s.config)
    && query(cfgs[s.config]).Ok? && s.app < |query(cfgs[s.config]).value|
  }

  /** The applications are those in the answers for the first n configurations, one for one and in reading order. */
  ghost predicate ListsApplications(query: Query, cfgs: seq<HostConfig>, n: nat, apps: seq<AppSummary>,
                                    at: seq<Place>) {
    && (forall s :: s in at <==> IsListed(query, cfgs, n, s))
    && (forall j, k | 0 <= j < k < |at| :: Precedes(at[j], at[k]))
    && |apps| == |at|
    && forall k | 0 <= k < |at| ::
         IsListed(query, cfgs, n, at[k]) && apps[k] == query(cfgs[at[k].config]).value[at[k].app]
  }

  lemma FirstEitherWay(cfgs: seq<HostConfig>, n: nat)
    requires n < |cfgs|
    ensures FirstOfLattice(cfgs, n) <==> cfgs[n].lattice !in LatticesOf(cfgs[..n])
    ensures FirstOfEach(cfgs[..n + 1]) == FirstOfEach(cfgs[..n]) + (if FirstOfLattice(cfgs, n) then [cfgs[n]] else [])
  {
    OneMoreFirst(cfgs, n);
    if cfgs[n].lattice in LatticesOf(cfgs[..n]) {
      var cfg :| cfg in cfgs[..n] && cfg.lattice == cfgs[n].lattice;
      var j :| 0 <= j < n && cfgs[..n][j] == cfg;
      assert cfgs[j].lattice == cfgs[n].lattice;
    } else {
      forall j | 0 <= j < n ensures cfgs[j].lattice != cfgs[n].lattice {
        assert cfgs[..n][j] in cfgs[..n];
      }
    }
  }

  /** The answer for one more configuration. */
  lemma PlacesAdd(query: Query, cfgs: seq<HostConfig>, n: nat, apps: seq<AppSummary>, at: seq<Place>)
    returns (all: seq<Place>)
    requires n < |cfgs| && ListsApplications(query, cfgs, n, apps, at)
    requires FirstOfLattice(cfgs, n) && query(cfgs[n]).Ok?
    ensures ListsApplications(query, cfgs, n + 1, apps + query(cfgs[n]).value, all)
  {
    var found := query(cfgs[n]).value;
    var mine := seq(|found|, k requires 0 <= k < |found| => Place(n, k));
    all := at + mine;
    assert forall k | 0 <= k < |at| :: at[k] in at;
    forall s ensures s in all <==> IsListed(query, cfgs, n + 1, s) {
      assert s in all <==> s in at || s in mine;
      if s.config == n && s.app < |found| {
        assert mine[s.app] == s;
      }
    }
  }

  /** The answer after the first n configurations. */
  function Asked(query: Query, cfgs: seq<HostConfig>, n: nat): Result<seq<AppSummary>, string>
    requires n <= |cfgs|
  {
    AskAll(query, FirstOfEach(cfgs[..n]))
  }

  lemma AskedStep(query: Query, cfgs: seq<HostConfig>, n: nat)
    requires n < |cfgs|
    ensures Asked(query, cfgs, n + 1)
         == if !FirstOfLattice(cfgs, n) then Asked(query, cfgs, n)
            else match Asked(query, cfgs, n)
              case Err(e) => Err(e)
              case Ok(apps) => match query(cfgs[n]) case Err(e) => Err(e) case Ok(found) => Ok(apps + found)
  {
    FirstEitherWay(cfgs, n);
    var before := FirstOfEach(cfgs[..n]);
    if FirstOfLattice(cfgs, n) {
      assert (before + [cfgs[n]])[..|before|] == before;
    } else {
      assert before + [] == before;
    }
  }

  lemma {:induction false} PlacesOf(query: Query, cfgs: seq<HostConfig>, n: nat) returns (at: seq<Place>)
    requires n <= |cfgs| && Asked(query, cfgs, n).Ok?
    ensures ListsApplications(query, cfgs, n, Asked(query, cfgs, n).value, at)
  {
    at := [];
    if n > 0 {
      AskedStep(query, cfgs, n - 1);
      at := PlacesOf(query, cfgs, n - 1);
      if FirstOfLattice(cfgs, n - 1) {
        at := PlacesAdd(query, cfgs, n - 1, Asked(query, cfgs, n - 1).value, at);
      } else {
        PlacesStay(query, cfgs, n - 1, Asked(query, cfgs, n - 1).value, at);
      }
    }
  }

  lemma PlacesStay(query: Query, cfgs: seq<HostConfig>, n: nat, apps: seq<AppSummary>, at: seq<Place>)
    requires n < |cfgs| && ListsApplications(query, cfgs, n, apps, at) && !FirstOfLattice(cfgs, n)
    ensures ListsApplications(query, cfgs, n + 1, apps, at)
  {
    assert forall s :: IsListed(query, cfgs, n + 1, s) <==> IsListed(query, cfgs, n, s);
  }

  /** A listing that succeeds holds the answers for the first configuration of each lattice, complete and in order. */
  lemma {:induction false} ApplicationsByPosition(query: Query, cfgs: seq<HostConfig>) returns (at: seq<Place>)
    requires AskAll(query, FirstOfEach(cfgs)).Ok?
    ensures ListsApplications(query, cfgs, |cfgs|, AskAll(query, FirstOfEach(cfgs)).value, at)
  {
    assert cfgs[..|cfgs|] == cfgs;
    at := PlacesOf(query, cfgs, |cfgs|);
  }

  /** The configuration need not be asked, or can be. */
  predicate Answers(query: Query, cfgs: seq<HostConfig>, i: int)
    requires 0 <= i < |cfgs|
  {
    FirstOfLattice(cfgs, i) ==> query(cfgs[i]).Ok?
  }

  predicate AnswerBefore(query: Query, cfgs: seq<HostConfig>, n: int)
    requires n <= |cfgs|
  {
    forall i | 0 <= i < n :: Answers(query, cfgs, i)
  }

  predicate FailsFirst(query: Query, cfgs: seq<HostConfig>, i: int, error: string) {
    FirstOfLattice(cfgs, i) && query(cfgs[i]) == Err(error) && AnswerBefore(query, cfgs, i)
  }

  lemma {:induction false} AskedOkIff(query: Query, cfgs: seq<HostConfig>, n: nat)
    requires n <= |cfgs|
    ensures Asked(query, cfgs, n).Ok? <==> AnswerBefore(query, cfgs, n)
  {
    if n > 0 {
      AskedStep(query, cfgs, n - 1);
      AskedOkIff(query, cfgs, n - 1);
      assert AnswerBefore(query, cfgs, n) <==> AnswerBefore(query, cfgs, n - 1) && Answers(query, cfgs, n - 1);
    }
  }

  lemma {:induction false} FailsFirstIn(query: Query, cfgs: seq<HostConfig>, n: nat, error: string)
    requires n <= |cfgs|
    ensures Asked(query, cfgs, n) == Err(error) <==> exists i :: i < n && FailsFirst(query, cfgs, i, error)
  {
    if n > 0 {
      AskedStep(query, cfgs, n - 1);
      AskedOkIff(query, cfgs, n - 1);
      FailsFirstIn(query, cfgs, n - 1, error);
      if i :| i < n && FailsFirst(query, cfgs, i, error) {
        assert i == n - 1 ==> Asked(query, cfgs, n - 1).Ok?;
      }
      if Asked(query, cfgs, n - 1).Ok? && Asked(query, cfgs, n) == Err(error) {
        assert FailsFirst(query, cfgs, n - 1, error);
      }
    }
  }

  /** A listing that fails fails with the error of the first lattice that cannot be asked. */
  lemma {:induction false} ListingErrorIff(query: Query, cfgs: seq<HostConfig>, error: string)
    ensures AskAll(query, FirstOfEach(cfgs)) == Err(error) <==> exists i :: FailsFirst(query, cfgs, i, error)
  {
    assert cfgs[..|cfgs|] == cfgs;
    FailsFirstIn(query, cfgs, |cfgs|, error);
  }

  // ---------------------------------------------------------------- order of the configurations

  /** The answer depends on the lattice alone. */
  ghost predicate ByLattice(query: Query) {
    forall a: HostConfig, b: HostConfig | a.lattice == b.lattice :: query(a) == query(b)
  }

  /** Asking succeeds if it does so before the last and for the last, and the last adds its applications. */
  lemma AskLast(query: Query, cfgs: seq<HostConfig>)
    requires cfgs != []
    ensures var n := |cfgs| - 1;
            && (AskAll(query, cfgs).Ok? <==> AskAll(query, cfgs[..n]).Ok? && query(cfgs[n]).Ok?)
            && (AskAll(query, cfgs).Ok? ==>
                  multiset(AskAll(query, cfgs).value)
                  == multiset(AskAll(query, cfgs[..n]).value) + multiset(query(cfgs[n]).value))
  {
  }

  lemma {:induction false} AskWithout(query: Query, cfgs: seq<HostConfig>, i: nat)
    requires i < |cfgs| && AskAll(query, cfgs).Ok?
    ensures query(cfgs[i]).Ok? && AskAll(query, Without(cfgs, i)).Ok?
    ensures multiset(AskAll(query, cfgs).value)
         == multiset(AskAll(query, Without(cfgs, i)).value) + multiset(query(cfgs[i]).value)
    decreases |cfgs|
  {
    var n := |cfgs| - 1;
    AskLast(query, cfgs);
    if i == n {
      assert Without(cfgs, i) == cfgs[..n];
    } else {
      var rest := Without(cfgs, i);
      AskWithout(query, cfgs[..n], i);
      assert rest[..n - 1] == Without(cfgs[..n], i);
      assert rest[n - 1] == cfgs[n];
      AskLast(query, rest);
    }
  }

  /** Two selections with one configuration for each of the same lattices give the same applications. */
  lemma {:induction false} SameLatticesSameApps(query: Query, a: seq<HostConfig>, b: seq<HostConfig>)
    requires ByLattice(query) && DistinctLattices(a) && DistinctLattices(b) && LatticesOf(a) == LatticesOf(b)
    requires AskAll(query, a).Ok? && AskAll(query, b).Ok?
    ensures multiset(AskAll(query, a).value) == multiset(AskAll(query, b).value)
    decreases |a|
  {
    if a == [] {
      NoLattices(b);
    } else {
      var n := |a| - 1;
      var i := SameLatticeIn(a, n, b);
      AskWithout(query, a, n);
      AskWithout(query, b, i);
      LatticesWithout(a, n);
      LatticesWithout(b, i);
      SameLatticesSameApps(query, Without(a, n), Without(b, i));
    }
  }

  /** All configurations but one. */
  function Without(cfgs: seq<HostConfig>, i: nat): (rest: seq<HostConfig>)
    requires i < |cfgs|
    ensures |rest| == |cfgs| - 1
  {
    cfgs[..i] + cfgs[i + 1..]
  }

  lemma SameLatticeIn(a: seq<HostConfig>, n: nat, b: seq<HostConfig>) returns (i: nat)
    requires n < |a| && LatticesOf(a) == LatticesOf(b)
    ensures i < |b| && b[i].lattice == a[n].lattice
  {
    assert a[n] in a && a[n].lattice in LatticesOf(b);
    var cfg :| cfg in b && cfg.lattice == a[n].lattice;
    i :| 0 <= i < |b| && b[i] == cfg;
  }

  lemma NoLattices(b: seq<HostConfig>)
    ensures b == [] || exists l :: l in LatticesOf(b)
  {
    if b != [] {
      assert b[0].lattice in LatticesOf(b);
    }
  }

  lemma WithoutMember(cfgs: seq<HostConfig>, i: nat, cfg: HostConfig)
    requires i < |cfgs| && DistinctLattices(cfgs)
    ensures cfg in Without(cfgs, i) <==> cfg in cfgs && cfg.lattice != cfgs[i].lattice
  {
    var rest := Without(cfgs, i);
    if cfg in rest {
      var j :| 0 <= j < |rest| && rest[j] == cfg;
      assert cfg == cfgs[if j < i then j else j + 1];
    }
    if cfg in cfgs && cfg.lattice != cfgs[i].lattice {
      var j :| 0 <= j < |cfgs| && cfgs[j] == cfg;
      assert rest[if j < i then j else j - 1] == cfg;
    }
  }

  lemma LatticesWithout(cfgs: seq<HostConfig>, i: nat)
    requires i < |cfgs| && DistinctLattices(cfgs)
    ensures DistinctLattices(Without(cfgs, i)) && LatticesOf(Without(cfgs, i)) == LatticesOf(cfgs) - {cfgs[i].lattice}
  {
    forall cfg ensures cfg in Without(cfgs, i) <==> cfg in cfgs && cfg.lattice != cfgs[i].lattice {
      WithoutMember(cfgs, i, cfg);
    }
  }

  /** The order of the configurations does not show in the applications listed, nor in whether it fails. */
  lemma {:induction false} ListingIgnoresOrder(query: Query, a: seq<HostConfig>, b: seq<HostConfig>)
    requires ByLattice(query) && multiset(a) == multiset(b)
    ensures AskAll(query, FirstOfEach(a)).Ok? <==> AskAll(query, FirstOfEach(b)).Ok?
    ensures AskAll(query, FirstOfEach(a)).Ok? ==>
              multiset(AskAll(query, FirstOfEach(a)).value) == multiset(AskAll(query, FirstOfEach(b)).value)
  {
    EachLatticeOnce(a);
    EachLatticeOnce(b);
    assert forall cfg :: cfg in a <==> cfg in multiset(a);
    assert forall cfg :: cfg in b <==> cfg in multiset(b);
    assert LatticesOf(a) == LatticesOf(b);
    FailureFollows(query, FirstOfEach(a), FirstOfEach(b));
    FailureFollows(query, FirstOfEach(b), FirstOfEach(a));
    if AskAll(query, FirstOfEach(a)).Ok? {
      SameLatticesSameApps(query, FirstOfEach(a), FirstOfEach(b));
    }
  }

  lemma FailureFollows(query: Query, a: seq<HostConfig>, b: seq<HostConfig>)
    requires ByLattice(query) && LatticesOf(a) == LatticesOf(b)
    ensures AskAll(query, a).Err? ==> AskAll(query, b).Err?
  {
    AskFailsIff(query, a);
    AskFailsIff(query, b);
    if AskAll(query, a).Err? {
      var cfg :| cfg in a && query(cfg).Err?;
      assert cfg.lattice in LatticesOf(a);
      var cfg' :| cfg' in b && cfg'.lattice == cfg.lattice;
    }
  }

  // ---------------------------------------------------------------- connecting to a lattice

  /** get_lattice_connection: the lattice of the first configuration that connects, or an error if none does. */
  method LatticeConnection(connect: HostConfig -> bool, cfgs: seq<HostConfig>) returns (lattice: Option<string>)
    ensures lattice.None? <==> forall cfg | cfg in cfgs && cfg.name.Some? :: !connect(cfg)
    ensures lattice.Some? ==>
              exists i :: && 0 <= i < |cfgs| && cfgs[i].name.Some? && connect(cfgs[i])
                          && lattice.value == cfgs[i].lattice
                          && forall j | 0 <= j < i :: cfgs[j].name.None? || !connect(cfgs[j])
  {
    for i := 0 to |cfgs|
      invariant forall j | 0 <= j < i :: cfgs[j].name.None? || !connect(cfgs[j])
    {
      if cfgs[i].name.None? {
        continue;
      }
      if connect(cfgs[i]) {
        return Some(cfgs[i].lattice);
      }
    }
    return None;
  }
}
