/** The published world the release tooling resolves in (scripts/release_readiness.py
    and scripts/release.py): three lines, what each version requires of the line
    below, and the resolvers that walk that chain. */
module ReleaseWorld {
  import opened Wrappers

  datatype Stage = Sdk | Workspace | Tools

  function Prefix(s: Stage): string {
    match s case Sdk => "v" case Workspace => "workspace-v" case Tools => "tools-v"
  }

  function Family(s: Stage): string {
    match s case Sdk => "mcuhome-sdk" case Workspace => "mcuhome-build-workspace" case Tools => "mcuhome-build-tools"
  }

  function Below(s: Stage): Option<Stage> {
    match s case Sdk => Some(Workspace) case Workspace => Some(Tools) case Tools => None
  }

  function AboveOf(s: Stage): Option<Stage> {
    match s case Sdk => None case Workspace => Some(Sdk) case Tools => Some(Workspace)
  }

  // ---- versions and constraints -------------------------------------------------

  /** PEP 440, taken as given: which strings are versions, their order, and which
      of them a specifier admits. */
  datatype Pep = Pep(valid: string -> bool, rank: string -> int, admits: (string, string) -> bool)

  /** A meta file's `requires`, in its own order; a key may carry a host. */
  type Requires = seq<(string, string)>

  predicate EndsWith(s: string, tail: string) {
    |s| >= |tail| && s[|s| - |tail|..] == tail
  }

  function ConstraintOn(needs: Requires, family: string): Option<string> {
    if needs == [] then None
    else if needs[0].0 == family || EndsWith(needs[0].0, "/" + family) then Some(needs[0].1)
    else ConstraintOn(needs[1..], family)
  }

  /** An absent or empty constraint admits nothing. */
  predicate Accepts(pep: Pep, constraint: Option<string>, version: string) {
    constraint.Some? && constraint.value != "" && pep.admits(constraint.value, version)
  }

  // ---- what is published ----------------------------------------------------------

  /** A release: its tag, and its meta file if it carries one. */
  datatype Release = Release(tag: string, draft: bool, meta: Option<Requires>)

  datatype Published = Published(version: string, tag: string, needs: Requires)

  predicate Publishes(pep: Pep, s: Stage, r: Release) {
    && !r.draft && |Prefix(s)| <= |r.tag| && r.tag[..|Prefix(s)|] == Prefix(s)
    && pep.valid(r.tag[|Prefix(s)|..])
  }

  function Insert(pep: Pep, e: Published, entries: seq<Published>): (r: seq<Published>)
    ensures multiset(r) == multiset(entries) + multiset{e}
  {
    if entries == [] || pep.rank(e.version) <= pep.rank(entries[0].version) then [e] + entries
    else
      assert entries == [entries[0]] + entries[1..];
      [entries[0]] + Insert(pep, e, entries[1..])
  }

  /** published_of and resolvable: the versions of one line that say what they
      require, oldest first. */
  function Candidates(pep: Pep, s: Stage, releases: seq<Release>): seq<Published> {
    if releases == [] then []
    else
      var rest := Candidates(pep, s, releases[1..]);
      var r := releases[0];
      if Publishes(pep, s, r) && r.meta.Some? then
        Insert(pep, Published(r.tag[|Prefix(s)|..], r.tag, r.meta.value), rest)
      else rest
  }

  predicate Ascending(pep: Pep, entries: seq<Published>) {
    forall i, k :: 0 <= i < k < |entries| ==> pep.rank(entries[i].version) <= pep.rank(entries[k].version)
  }

  lemma AscendingParts(pep: Pep, low: seq<Published>, high: seq<Published>)
    requires Ascending(pep, low) && Ascending(pep, high)
    requires forall a, b :: a in low && b in high ==> pep.rank(a.version) <= pep.rank(b.version)
    ensures Ascending(pep, low + high)
  {
    var all := low + high;
    assert forall i :: 0 <= i < |low| ==> all[i] == low[i] && low[i] in low;
    assert forall i :: |low| <= i < |all| ==> all[i] == high[i - |low|] && high[i - |low|] in high;
  }

  lemma Inserted(pep: Pep, e: Published, entries: seq<Published>, b: Published)
    requires b in Insert(pep, e, entries)
    ensures b == e || b in entries
  {
    var r := Insert(pep, e, entries);
    hide Insert;
    assert b in multiset(r);
  }

  lemma {:induction false} InsertAscends(pep: Pep, e: Published, entries: seq<Published>)
    requires Ascending(pep, entries)
    ensures Ascending(pep, Insert(pep, e, entries))
  {
    if entries != [] {
      var first := entries[0];
      forall b | b in entries
        ensures pep.rank(first.version) <= pep.rank(b.version)
      {
        var k :| 0 <= k < |entries| && entries[k] == b;
      }
      assert Ascending(pep, entries[1..]) && Ascending(pep, [e]) && Ascending(pep, [first]);
      hide Ascending;
      if pep.rank(e.version) > pep.rank(first.version) {
        InsertAscends(pep, e, entries[1..]);
        var rest := Insert(pep, e, entries[1..]);
        forall b | b in rest
          ensures pep.rank(first.version) <= pep.rank(b.version)
        {
          Inserted(pep, e, entries[1..], b);
        }
        AscendingParts(pep, [first], rest);
      } else {
        AscendingParts(pep, [e], entries);
      }
    }
  }

  lemma {:induction false} CandidatesAscend(pep: Pep, s: Stage, releases: seq<Release>)
    ensures Ascending(pep, Candidates(pep, s, releases))
  {
    if releases != [] {
      CandidatesAscend(pep, s, releases[1..]);
      var r := releases[0];
      if Publishes(pep, s, r) && r.meta.Some? {
        InsertAscends(pep, Published(r.tag[|Prefix(s)|..], r.tag, r.meta.value), Candidates(pep, s, releases[1..]));
      }
    }
  }

  // ---- the newest of a range --------------------------------------------------------

  function Satisfying(pep: Pep, entries: seq<Published>, constraint: Option<string>): (r: seq<Published>)
    ensures forall e :: e in r <==> e in entries && Accepts(pep, constraint, e.version)
  {
    if entries == [] then []
    else
      var front, last := entries[..|entries| - 1], entries[|entries| - 1];
      assert entries == front + [last];
      if Accepts(pep, constraint, last.version) then Satisfying(pep, front, constraint) + [last]
      else Satisfying(pep, front, constraint)
  }

  lemma Front(pep: Pep, entries: seq<Published>, k: nat)
    requires Ascending(pep, entries) && k < |entries|
    ensures Ascending(pep, entries[..|entries| - 1])
        && pep.rank(entries[k].version) <= pep.rank(entries[|entries| - 1].version)
  {
  }

  /** satisfying[-1]: nothing inside the constraint is newer. */
  lemma {:induction false} LastIsNewest(pep: Pep, entries: seq<Published>, constraint: Option<string>, k: nat)
    requires Ascending(pep, entries) && k < |entries| && Accepts(pep, constraint, entries[k].version)
    ensures var all := Satisfying(pep, entries, constraint);
            all != [] && pep.rank(entries[k].version) <= pep.rank(all[|all| - 1].version)
  {
    hide Accepts;
    hide Ascending;
    var n := |entries| - 1;
    Front(pep, entries, k);
    if Accepts(pep, constraint, entries[n].version) {
      assert Satisfying(pep, entries, constraint) == Satisfying(pep, entries[..n], constraint) + [entries[n]];
    } else {
      assert Satisfying(pep, entries, constraint) == Satisfying(pep, entries[..n], constraint);
      hide Satisfying;
      LastIsNewest(pep, entries[..n], constraint, k);
    }
  }

  /** next(reversed(...)): the other way the code looks for the newest, on what
      the entries themselves require. */
  function NewestAccepting(pep: Pep, entries: seq<Published>, family: string, version: string): Option<Published> {
    if entries == [] then None
    else
      var last := entries[|entries| - 1];
      if Accepts(pep, ConstraintOn(last.needs, family), version) then Some(last)
      else NewestAccepting(pep, entries[..|entries| - 1], family, version)
  }

  function Accepting(pep: Pep, entries: seq<Published>, family: string, version: string): (r: seq<Published>)
    ensures forall e :: e in r <==> e in entries && Accepts(pep, ConstraintOn(e.needs, family), version)
  {
    if entries == [] then []
    else
      var front, last := entries[..|entries| - 1], entries[|entries| - 1];
      assert entries == front + [last];
      if Accepts(pep, ConstraintOn(last.needs, family), version) then Accepting(pep, front, family, version) + [last]
      else Accepting(pep, front, family, version)
  }

  lemma {:induction false} NewestIsLast(pep: Pep, entries: seq<Published>, family: string, version: string)
    ensures var all := Accepting(pep, entries, family, version);
            NewestAccepting(pep, entries, family, version) == if all == [] then None else Some(all[|all| - 1])
  {
    if entries != [] {
      NewestIsLast(pep, entries[..|entries| - 1], family, version);
    }
  }

  lemma {:induction false} FilterAscends(pep: Pep, entries: seq<Published>, constraint: Option<string>)
    requires Ascending(pep, entries)
    ensures Ascending(pep, Satisfying(pep, entries, constraint))
  {
    if entries != [] {
      var front, last := entries[..|entries| - 1], entries[|entries| - 1];
      assert Ascending(pep, front) && Ascending(pep, [last]);
      assert forall e :: e in front ==> pep.rank(e.version) <= pep.rank(last.version);
      hide Ascending;
      hide Accepts;
      FilterAscends(pep, front, constraint);
      AscendingParts(pep, Satisfying(pep, front, constraint), [last]);
    }
  }

  /** The newest published version above that takes this one; none only where
      none does. */
  lemma {:induction false} NewestAcceptingIsNewest(pep: Pep, entries: seq<Published>, family: string, version: string)
    requires Ascending(pep, entries)
    ensures var newest := NewestAccepting(pep, entries, family, version);
            && (newest.None? <==> forall e :: e in entries ==> !Accepts(pep, ConstraintOn(e.needs, family), version))
            && (newest.Some? ==>
                  && newest.value in entries && Accepts(pep, ConstraintOn(newest.value.needs, family), version)
                  && forall e :: e in entries && Accepts(pep, ConstraintOn(e.needs, family), version) ==>
                       pep.rank(e.version) <= pep.rank(newest.value.version))
  {
    hide Accepts;
    hide ConstraintOn;
    if entries != [] {
      var n := |entries| - 1;
      assert entries == entries[..n] + [entries[n]];
      NewestAcceptingIsNewest(pep, entries[..n], family, version);
      forall e | e in entries
        ensures pep.rank(e.version) <= pep.rank(entries[n].version)
      {
        var k :| 0 <= k < |entries| && entries[k] == e;
        Front(pep, entries, k);
      }
    }
  }

  // ---- the chain below --------------------------------------------------------------

  function Newest(all: seq<Published>): Option<Published> {
    if all == [] then None else Some(all[|all| - 1])
  }

  function NewestBelow(pep: Pep, releases: seq<Release>, needs: Requires, lower: Stage): Option<Published> {
    Newest(Satisfying(pep, Candidates(pep, lower, releases), ConstraintOn(needs, Family(lower))))
  }

  /** Down from `owner`, newest satisfying each constraint; None where a link is missing. */
  function Chain(pep: Pep, releases: seq<Release>, owner: Stage, needs: Requires): Option<map<Stage, Published>>
    decreases match owner case Sdk => 2 case Workspace => 1 case Tools => 0
  {
    if Below(owner).None? then Some(map[])
    else
      var lower := Below(owner).value;
      var newest := NewestBelow(pep, releases, needs, lower);
      if newest.None? then None
      else
        var rest := Chain(pep, releases, lower, newest.value.needs);
        if rest.None? then None else Some(map[lower := newest.value] + rest.value)
  }

  /** _below: the loop over changing locals; a missing link blocks the release. */
  method ResolveBelow(pep: Pep, releases: seq<Release>, stage: Stage, own: Requires)
    returns (stages: map<Stage, Published>, blocked: bool)
    ensures blocked <==> Chain(pep, releases, stage, own).None?
    ensures !blocked ==> Chain(pep, releases, stage, own) == Some(stages)
  {
    hide Chain;
    hide Satisfying;
    hide Candidates;
    stages, blocked := map[], false;
    var owner, needs := stage, own;
    assert forall rest: map<Stage, Published> :: map[] + rest == rest;
    while Below(owner).Some?
      invariant Chain(pep, releases, stage, own) == Onto(stages, Chain(pep, releases, owner, needs))
      decreases match owner case Sdk => 2 case Workspace => 1 case Tools => 0
    {
      var lower := Below(owner).value;
      var constraint := ConstraintOn(needs, Family(lower));
      var satisfying := Satisfying(pep, Candidates(pep, lower, releases), constraint);
      OneLink(pep, releases, owner, needs);
      if satisfying == [] {
        return stages, true;
      }
      var newest := satisfying[|satisfying| - 1];
      OntoTwice(stages, lower, newest, Chain(pep, releases, lower, newest.needs));
      stages := stages[lower := newest];
      owner, needs := lower, newest.needs;
    }
    OneLink(pep, releases, owner, needs);
    assert stages + map[] == stages;
  }

  function Onto(stages: map<Stage, Published>, rest: Option<map<Stage, Published>>): Option<map<Stage, Published>> {
    if rest.None? then None else Some(stages + rest.value)
  }

  lemma OneLink(pep: Pep, releases: seq<Release>, owner: Stage, needs: Requires)
    ensures Chain(pep, releases, owner, needs)
            == if Below(owner).None? then Some(map[])
               else
                 var newest := NewestBelow(pep, releases, needs, Below(owner).value);
                 if newest.None? then None
                 else Onto(map[Below(owner).value := newest.value],
                   Chain(pep, releases, Below(owner).value, newest.value.needs))
  {
    hide NewestBelow;
  }

  lemma OntoTwice(stages: map<Stage, Published>, lower: Stage, newest: Published, rest: Option<map<Stage, Published>>)
    ensures Onto(stages, Onto(map[lower := newest], rest)) == Onto(stages[lower := newest], rest)
  {
    if rest.Some? {
      assert stages + (map[lower := newest] + rest.value) == stages[lower := newest] + rest.value;
    }
  }

  // ---- the resolvers of scripts/release.py --------------------------------------------

  datatype Tags = Tags(sdk: string, workspace: string, tools: string, imageVersion: string)

  function Found(entries: seq<Published>, version: string): Option<Published> {
    if entries == [] then None
    else if entries[0].version == version then Some(entries[0]) else Found(entries[1..], version)
  }

  /** verify_plan: the chain around a release that exists, or a refusal. */
  function VerifyPlan(pep: Pep, releases: seq<Release>, stage: Stage, version: string): Option<Tags> {
    match stage
    case Tools => None
    case Sdk =>
      var sdk := Found(Candidates(pep, Sdk, releases), version);
      if sdk.None? then None
      else
        var workspace := NewestBelow(pep, releases, sdk.value.needs, Workspace);
        if workspace.None? then None
        else
          var tools := NewestBelow(pep, releases, workspace.value.needs, Tools);
          if tools.None? then None
          else Some(Tags(sdk.value.tag, workspace.value.tag, tools.value.tag, workspace.value.version))
    case Workspace =>
      var workspace := Found(Candidates(pep, Workspace, releases), version);
      if workspace.None? then None
      else
        var tools := NewestBelow(pep, releases, workspace.value.needs, Tools);
        var sdk := NewestAccepting(pep, Candidates(pep, Sdk, releases), Family(Workspace), workspace.value.version);
        if tools.None? || sdk.None? then None
        else Some(Tags(sdk.value.tag, workspace.value.tag, tools.value.tag, workspace.value.version))
  }

  datatype Image = Image(tools: Published, sdk: Option<Published>)

  /** image_packages: what an image of one workspace release delivers. */
  function ImagePackages(pep: Pep, releases: seq<Release>, version: string, needs: Requires): Option<Image> {
    var satisfying := Satisfying(pep, Candidates(pep, Tools, releases), ConstraintOn(needs, Family(Tools)));
    if satisfying == [] then None
    else
      Some(Image(satisfying[|satisfying| - 1],
                 Newest(Accepting(pep, Candidates(pep, Sdk, releases), Family(Workspace), version))))
  }

  // ---- the gated release, published ------------------------------------------------------

  function Cut(s: Stage, version: string, needs: Requires): Release {
    Release(Prefix(s) + version, false, Some(needs))
  }

  /** A tag belongs to one line. */
  lemma OneLine(pep: Pep, s: Stage, version: string, needs: Requires, other: Stage)
    requires pep.valid(version)
    ensures Publishes(pep, other, Cut(s, version, needs)) ==> other == s
    ensures Publishes(pep, s, Cut(s, version, needs))
  {
    var tag := Prefix(s) + version;
    assert tag[|Prefix(s)|..] == version && tag[0] == Prefix(s)[0];
    assert |Prefix(other)| <= |tag| ==> tag[..|Prefix(other)|][0] == tag[0];
  }

  lemma {:induction false} OthersUnchanged(pep: Pep, releases: seq<Release>, r: Release, other: Stage)
    requires !Publishes(pep, other, r)
    ensures Candidates(pep, other, releases + [r]) == Candidates(pep, other, releases)
  {
    if releases == [] {
      assert (releases + [r])[1..] == [];
    } else {
      assert (releases + [r])[1..] == releases[1..] + [r];
      OthersUnchanged(pep, releases[1..], r, other);
    }
  }

  lemma {:induction false} NowThere(pep: Pep, releases: seq<Release>, r: Release, s: Stage)
    requires Publishes(pep, s, r) && r.meta.Some?
    ensures multiset(Candidates(pep, s, releases + [r]))
            == multiset(Candidates(pep, s, releases)) + multiset{Published(r.tag[|Prefix(s)|..], r.tag, r.meta.value)}
  {
    if releases == [] {
      assert (releases + [r])[1..] == [];
    } else {
      assert (releases + [r])[1..] == releases[1..] + [r];
      NowThere(pep, releases[1..], r, s);
    }
  }

  lemma {:induction false} FoundAlone(entries: seq<Published>, e: Published)
    requires e in entries && forall f :: f in entries && f.version == e.version ==> f == e
    ensures Found(entries, e.version) == Some(e)
  {
    if entries[0].version != e.version {
      FoundAlone(entries[1..], e);
    }
  }

  lemma FindsTheCut(pep: Pep, releases: seq<Release>, s: Stage, version: string, needs: Requires)
    requires pep.valid(version) && forall e :: e in Candidates(pep, s, releases) ==> e.version != version
    ensures Found(Candidates(pep, s, releases + [Cut(s, version, needs)]), version)
            == Some(Published(version, Prefix(s) + version, needs))
    ensures forall other :: other != s ==>
              Candidates(pep, other, releases + [Cut(s, version, needs)]) == Candidates(pep, other, releases)
  {
    var r := Cut(s, version, needs);
    forall other | other != s
      ensures Candidates(pep, other, releases + [r]) == Candidates(pep, other, releases)
    {
      OneLine(pep, s, version, needs, other);
      OthersUnchanged(pep, releases, r, other);
    }
    OneLine(pep, s, version, needs, s);
    NowThere(pep, releases, r, s);
    var e := Published(version, Prefix(s) + version, needs);
    assert r.tag[|Prefix(s)|..] == version;
    var after := Candidates(pep, s, releases + [r]);
    assert e in multiset(after);
    forall f | f in after && f.version == version
      ensures f == e
    {
      assert f in multiset(after);
    }
    FoundAlone(after, e);
  }

  /** Once the gated release is published with the requires it declared, the
      verification of it resolves the chain the gate resolved, and is refused
      exactly when the gate was blocked or nothing sits above. */
  lemma VerifyAgreesForSdk(pep: Pep, releases: seq<Release>, version: string, own: Requires)
    requires pep.valid(version) && forall e :: e in Candidates(pep, Sdk, releases) ==> e.version != version
    ensures var chain := Chain(pep, releases, Sdk, own);
            VerifyPlan(pep, releases + [Cut(Sdk, version, own)], Sdk, version)
            == if chain.None? then None
               else Some(Tags("v" + version, chain.value[Workspace].tag, chain.value[Tools].tag,
                 chain.value[Workspace].version))
  {
    FindsTheCut(pep, releases, Sdk, version, own);
    ChainOfSdk(pep, releases, own);
  }

  lemma ChainOfSdk(pep: Pep, releases: seq<Release>, own: Requires)
    ensures var workspace := NewestBelow(pep, releases, own, Workspace);
            var chain := Chain(pep, releases, Sdk, own);
            if workspace.None? then chain == None
            else
              var tools := NewestBelow(pep, releases, workspace.value.needs, Tools);
              chain == if tools.None? then None else Some(map[Workspace := workspace.value, Tools := tools.value])
  {
    hide Chain;
    hide NewestBelow;
    OneLink(pep, releases, Sdk, own);
    var workspace := NewestBelow(pep, releases, own, Workspace);
    if workspace.Some? {
      ChainOfWorkspace(pep, releases, workspace.value.needs);
      var tools := NewestBelow(pep, releases, workspace.value.needs, Tools);
      if tools.Some? {
        assert map[Workspace := workspace.value] + map[Tools := tools.value]
            == map[Workspace := workspace.value, Tools := tools.value];
      }
    }
  }

  lemma ChainOfWorkspace(pep: Pep, releases: seq<Release>, own: Requires)
    ensures var tools := NewestBelow(pep, releases, own, Tools);
            Chain(pep, releases, Workspace, own) == if tools.None? then None else Some(map[Tools := tools.value])
  {
    hide Chain;
    hide NewestBelow;
    OneLink(pep, releases, Workspace, own);
    var tools := NewestBelow(pep, releases, own, Tools);
    if tools.Some? {
      OneLink(pep, releases, Tools, tools.value.needs);
      assert map[Tools := tools.value] + map[] == map[Tools := tools.value];
    }
  }

  /** The same for a workspace, whose image delivers the tools the gate resolved. */
  lemma VerifyAgreesForWorkspace(pep: Pep, releases: seq<Release>, version: string, own: Requires)
    requires pep.valid(version) && forall e :: e in Candidates(pep, Workspace, releases) ==> e.version != version
    ensures var chain := Chain(pep, releases, Workspace, own);
            var sdk := NewestAccepting(pep, Candidates(pep, Sdk, releases), Family(Workspace), version);
            && VerifyPlan(pep, releases + [Cut(Workspace, version, own)], Workspace, version)
               == (if chain.None? || sdk.None? then None
                   else Some(Tags(sdk.value.tag, "workspace-v" + version, chain.value[Tools].tag, version)))
            && ImagePackages(pep, releases + [Cut(Workspace, version, own)], version, own)
               == (if chain.None? then None else Some(Image(chain.value[Tools], sdk)))
  {
    FindsTheCut(pep, releases, Workspace, version, own);
    ChainOfWorkspace(pep, releases, own);
    NewestIsLast(pep, Candidates(pep, Sdk, releases), Family(Workspace), version);
  }
}
