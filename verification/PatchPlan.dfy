/**
 From requested ids to an install and back: which ids reach the package manager, and what is reported
 of each afterwards.
 */
module PatchPlan {
  import opened Basics
  import opened InstallResult
  import opened PackageIds

  predicate NoRepeats(s: seq<string>) { forall i, j :: 0 <= i < j < |s| ==> s[i] != s[j] }

  lemma NoRepeatsSnoc(s: seq<string>, x: string)
    requires NoRepeats(s) && x !in s
    ensures NoRepeats(s + [x])
  {
  }

  // ---------------------------------------------------------------- before any plan

  /** Each non-empty id once, in order of first appearance. */
  function Dedupe(ids: seq<string>): (r: seq<string>)
    ensures NoRepeats(r) && forall id :: id in r <==> id in ids && id != ""
  {
    if ids == [] then []
    else
      var d, id := Dedupe(ids[..|ids| - 1]), ids[|ids| - 1];
      assert ids == ids[..|ids| - 1] + [id];
      if id == "" || id in d then d else d + [id]
  }

  method DedupeIds(ids: seq<string>) returns (out: seq<string>)
    ensures out == Dedupe(ids)
  {
    out := [];
    var seen: set<string> := {};
    for i := 0 to |ids|
      invariant out == Dedupe(ids[..i]) && forall id :: id in seen <==> id in out
    {
      assert ids[..i + 1][..i] == ids[..i];
      if ids[i] != "" && ids[i] !in seen {
        seen := seen + {ids[i]};
        out := out + [ids[i]];
      }
    }
    assert ids[..|ids|] == ids;
  }

  const SELF_REASON := "patch: the agent does not install its own package from a patch job"
  const BAD_ID := "patch: unusable update id"
  const NOT_OFFERED := "patch: update is not currently offered by this host"
  const TOO_SHORT := "patch: install deadline is shorter than the floor"

  /** The ids left after refusing the agent's own package. */
  function Others(ids: seq<string>): (r: seq<string>) {
    if ids == [] then []
    else
      var rest, id := Others(ids[..|ids| - 1]), ids[|ids| - 1];
      if IsSelfPackage(id) then rest else rest + [id]
  }

  lemma {:induction false} OthersAre(ids: seq<string>)
    ensures NoRepeats(ids) ==> NoRepeats(Others(ids))
    ensures forall id :: id in Others(ids) <==> id in ids && !IsSelfPackage(id)
  {
    hide IsSelfPackage;
    if ids != [] {
      var front, id := ids[..|ids| - 1], ids[|ids| - 1];
      assert ids == front + [id];
      OthersAre(front);
      assert NoRepeats(ids) ==> NoRepeats(front) && id !in front;
    }
  }

  /** Every id failed for one reason. */
  function FailAll(ids: seq<string>, r: Result, why: string): (t: Result)
    ensures t.installed == r.installed && forall id :: id in t.failed <==> id in r.failed || id in ids
    ensures forall id :: id in t.failed ==> t.failed[id] == if id in r.failed then r.failed[id] else why
  {
    if ids == [] then r
    else
      assert ids == ids[..|ids| - 1] + [ids[|ids| - 1]];
      Fail(FailAll(ids[..|ids| - 1], r, why), ids[|ids| - 1], why)
  }

  function Refused(ids: seq<string>, r: Result): (t: Result)
    ensures t.installed == r.installed
    ensures forall id :: id in t.failed <==> id in r.failed || (id in ids && IsSelfPackage(id))
    ensures forall id :: id in t.failed ==> t.failed[id] == if id in r.failed then r.failed[id] else SELF_REASON
  {
    if ids == [] then r
    else
      var t, id := Refused(ids[..|ids| - 1], r), ids[|ids| - 1];
      assert ids == ids[..|ids| - 1] + [id];
      if IsSelfPackage(id) then Fail(t, id, SELF_REASON) else t
  }

  /** prepareInstall: fails every id when the deadline is too close, and otherwise only the agent's own
      package. */
  method PrepareInstall(ids: seq<string>, tooSoon: bool, r: Result) returns (out: seq<string>, t: Result)
    ensures tooSoon ==> out == [] && t == FailAll(ids, r, TOO_SHORT)
    ensures !tooSoon ==> out == Others(ids) && t == Refused(ids, r)
  {
    out, t := [], r;
    for i := 0 to |ids|
      invariant tooSoon ==> out == [] && t == FailAll(ids[..i], r, TOO_SHORT)
      invariant !tooSoon ==> out == Others(ids[..i]) && t == Refused(ids[..i], r)
    {
      hide IsSelfPackage, Fail;
      assert ids[..i + 1][..i] == ids[..i];
      if tooSoon {
        t := Fail(t, ids[i], TOO_SHORT);
      } else if IsSelfPackage(ids[i]) {
        t := Fail(t, ids[i], SELF_REASON);
      } else {
        out := out + [ids[i]];
      }
    }
    assert ids[..|ids|] == ids;
  }

  // ---------------------------------------------------------------- the plan

  datatype Verdict = Accept(name: string, version: string) | Reject(why: string)

  /** An id whose two halves are fit for a command line. */
  function Parsed(id: string): (v: Verdict)
    ensures v.Accept? ==> id == v.name + "=" + v.version && GoodName(v.name, false) && GoodVersion(v.version)
  {
    var p := SplitId(id);
    if p.None? || !GoodName(p.value.left, false) || !GoodVersion(p.value.right) then Reject(BAD_ID)
    else Accept(p.value.left, p.value.right)
  }

  /** apt takes an id it offers; pacman one for a name it offers. */
  function AptVerdict(id: string, offered: set<string>): (v: Verdict)
    ensures v.Accept? ==> v == Parsed(id) && id in offered
  {
    var v := Parsed(id);
    if v.Accept? && id !in offered then Reject(NOT_OFFERED) else v
  }

  function PacmanVerdict(id: string, names: set<string>): (v: Verdict)
    ensures v.Accept? ==> v == Parsed(id) && v.name in names
  {
    var v := Parsed(id);
    if v.Accept? && v.name !in names then Reject(NOT_OFFERED) else v
  }

  /** Which ids are taken, and why the others are not: every good name and version makes an id that is, if it
      is offered. */
  lemma VerdictIff(name: string, version: string, offered: set<string>, names: set<string>)
    requires GoodName(name, false) && GoodVersion(version)
    ensures var id := name + "=" + version;
            && Parsed(id) == Accept(name, version)
            && AptVerdict(id, offered) == (if id in offered then Accept(name, version) else Reject(NOT_OFFERED))
            && PacmanVerdict(id, names) == (if name in names then Accept(name, version) else Reject(NOT_OFFERED))
  {
    hide GoodName, GoodVersion, Parsed;
    GoodIsParsed(name, version);
  }

  lemma GoodIsParsed(name: string, version: string)
    requires GoodName(name, false) && GoodVersion(version)
    ensures Parsed(name + "=" + version) == Accept(name, version)
  {
    hide NameChar, VersionChar, AlphaNumeric, SplitId;
    GoodHasNoSpace(name, version);
    SplitIs(name, version);
  }

  lemma BadIdIsRejected(id: string, offered: set<string>, names: set<string>)
    requires forall l, v :: id == l + "=" + v ==> !GoodName(l, false) || !GoodVersion(v)
    ensures Parsed(id) == AptVerdict(id, offered) == PacmanVerdict(id, names) == Reject(BAD_ID)
  {
    hide GoodName, GoodVersion;
  }

  method Judge(id: string) returns (v: Verdict)
    ensures v == Parsed(id)
  {
    var p := SplitId(id);
    if p.None? {
      return Reject(BAD_ID);
    }
    var ok := CheckPkgName(p.value.left, false);
    if !ok {
      return Reject(BAD_ID);
    }
    ok := CheckPkgVersion(p.value.right);
    return if ok then Accept(p.value.left, p.value.right) else Reject(BAD_ID);
  }

  datatype Plan = Plan(specs: seq<string>, want: map<string, string>, idByName: map<string, string>, res: Result)

  function Planned(p: Plan, id: string, v: Verdict): Plan {
    match v
    case Reject(why) => p.(res := Fail(p.res, id, why))
    case Accept(name, version) =>
      p.(specs := p.specs + [name + "=" + version], want := p.want[name := version], idByName := p.idByName[name := id])
  }

  function AptPlan(ids: seq<string>, offered: set<string>, r: Result): Plan {
    if ids == [] then Plan([], map[], map[], r)
    else Planned(AptPlan(ids[..|ids| - 1], offered, r), ids[|ids| - 1], AptVerdict(ids[|ids| - 1], offered))
  }

  method AptInstallPlan(ids: seq<string>, offered: set<string>, r: Result) returns (p: Plan)
    ensures p == AptPlan(ids, offered, r)
  {
    p := Plan([], map[], map[], r);
    for i := 0 to |ids|
      invariant p == AptPlan(ids[..i], offered, r)
    {
      hide Parsed, Planned;
      assert ids[..i + 1][..i] == ids[..i];
      var v := Judge(ids[i]);
      if v.Accept? && ids[i] !in offered {
        v := Reject(NOT_OFFERED);
      }
      p := Planned(p, ids[i], v);
    }
    assert ids[..|ids|] == ids;
  }

  /** What the plan holds: each accepted id's name, with the id accepted last for it. */
  ghost predicate AptPlanIs(p: Plan, ids: seq<string>, offered: set<string>, r: Result) {
    && p.res.installed == r.installed
    && (forall id :: id in p.res.failed <==> id in r.failed || (id in ids && AptVerdict(id, offered).Reject?))
    && p.want.Keys == p.idByName.Keys
    && (forall n :: n in p.want ==> p.idByName[n] in ids && AptVerdict(p.idByName[n], offered) == Accept(n, p.want[n]))
    && (forall id :: id in ids && AptVerdict(id, offered).Accept? ==> AptVerdict(id, offered).name in p.want)
    && (forall s :: s in p.specs ==> s in ids && AptVerdict(s, offered).Accept?)
    && (forall n :: n in p.want ==> p.specs != [])
  }

  lemma PlannedKeeps(p: Plan, ids: seq<string>, id: string, offered: set<string>, r: Result)
    requires AptPlanIs(p, ids, offered, r)
    ensures AptPlanIs(Planned(p, id, AptVerdict(id, offered)), ids + [id], offered, r)
  {
    hide AptVerdict, Parsed, GoodName, GoodVersion;
    var v := AptVerdict(id, offered);
    assert forall x :: x in ids + [id] <==> x in ids || x == id;
    if v.Accept? {
      assert id == v.name + "=" + v.version;
    }
  }

  lemma EmptyAptPlan(offered: set<string>, r: Result)
    ensures AptPlanIs(Plan([], map[], map[], r), [], offered, r)
  {
  }

  lemma {:induction false} AptPlanMeans(ids: seq<string>, offered: set<string>, r: Result)
    ensures AptPlanIs(AptPlan(ids, offered, r), ids, offered, r)
  {
    hide AptPlanIs, Planned, AptVerdict;
    if ids == [] {
      EmptyAptPlan(offered, r);
    } else {
      var front, id := ids[..|ids| - 1], ids[|ids| - 1];
      AptPlanMeans(front, offered, r);
      PlannedKeeps(AptPlan(front, offered, r), front, id, offered, r);
      assert front + [id] == ids;
    }
  }

  /** The ids apt takes, in order. */
  function Taken(ids: seq<string>, offered: set<string>): seq<string> {
    if ids == [] then []
    else
      var rest, id := Taken(ids[..|ids| - 1], offered), ids[|ids| - 1];
      if AptVerdict(id, offered).Accept? then rest + [id] else rest
  }

  /** No accepted id for the name comes after the one at k. */
  ghost predicate LastOfName(ids: seq<string>, offered: set<string>, k: nat, name: string)
    requires k < |ids|
  {
    && AptVerdict(ids[k], offered).Accept? && AptVerdict(ids[k], offered).name == name
    && forall j :: k < j < |ids| && AptVerdict(ids[j], offered).Accept? ==> AptVerdict(ids[j], offered).name != name
  }

  lemma {:induction false} LastOfNameIsPlanned(ids: seq<string>, offered: set<string>, r: Result, k: nat, name: string)
    requires k < |ids| && LastOfName(ids, offered, k, name)
    ensures var p := AptPlan(ids, offered, r); name in p.idByName && p.idByName[name] == ids[k]
  {
    hide AptVerdict;
    var n := |ids| - 1;
    if k < n {
      assert forall j :: 0 <= j < n ==> ids[..n][j] == ids[j];
      LastOfNameIsPlanned(ids[..n], offered, r, k, name);
    }
  }

  /** Every id it takes is handed on, and nothing else, in the order asked for; every other fails with the
      reason it was turned away for. */
  lemma {:induction false} AptPlanHandsOn(ids: seq<string>, offered: set<string>, r: Result)
    ensures var p := AptPlan(ids, offered, r);
            && p.specs == Taken(ids, offered)
            && (forall id :: id in r.failed ==> id in p.res.failed && p.res.failed[id] == r.failed[id])
            && (forall id :: id in ids && id !in r.failed && AptVerdict(id, offered).Reject? ==>
                  id in p.res.failed && p.res.failed[id] == AptVerdict(id, offered).why)
  {
    hide AptVerdict, GoodName, GoodVersion, Parsed;
    if ids != [] {
      var front, id := ids[..|ids| - 1], ids[|ids| - 1];
      AptPlanHandsOn(front, offered, r);
      AptPlanMeans(front, offered, r);
      assert forall x :: x in ids <==> x in front || x == id;
      var v := AptVerdict(id, offered);
      assert v.Accept? ==> id == v.name + "=" + v.version;
    }
  }

  // ---------------------------------------------------------------- what landed

  /** What dpkg says of one planned name. */
  function AttributeOne(p: Plan, name: string, dpkg: map<string, string>, ran: bool, r: Result): Result
    requires name in p.want && p.want.Keys == p.idByName.Keys
  {
    var id := p.idByName[name];
    if name in dpkg && dpkg[name] == p.want[name] then r.(installed := r.installed + [id])
    else if name in dpkg then Fail(r, id, "installed version is " + dpkg[name] + ", wanted " + p.want[name])
    else if !ran then Fail(r, id, "dpkg does not have " + name)
    else Fail(r, id, "package not installed after apt-get install")
  }

  function Attribute(p: Plan, order: seq<string>, dpkg: map<string, string>, ran: bool, r: Result): Result
    requires p.want.Keys == p.idByName.Keys && forall n :: n in order ==> n in p.want
  {
    if order == [] then r
    else AttributeOne(p, order[|order| - 1], dpkg, ran, Attribute(p, order[..|order| - 1], dpkg, ran, r))
  }

  /** Go ranges over a map in any order; the order taken is returned. */
  method AttributeAptResult(p: Plan, dpkg: map<string, string>, ran: bool) returns (r: Result, ghost order: seq<string>)
    requires p.want.Keys == p.idByName.Keys
    ensures NoRepeats(order) && forall n :: n in order <==> n in p.want
    ensures r == Attribute(p, order, dpkg, ran, p.res)
    ensures forall id ::
              id in r.installed <==>
              id in p.res.installed || exists n :: n in p.want && p.idByName[n] == id && Landed(p, n, dpkg)
    ensures forall id ::
              id in r.failed <==>
              id in p.res.failed || exists n :: n in p.want && p.idByName[n] == id && !Landed(p, n, dpkg)
  {
    hide Landed;
    r, order := p.res, [];
    var left := p.want.Keys;
    while left != {}
      invariant left <= p.want.Keys && NoRepeats(order)
      invariant forall n :: n in order <==> n in p.want && n !in left
      invariant r == Attribute(p, order, dpkg, ran, p.res)
      decreases left
    {
      hide AttributeOne;
      var name :| name in left;
      left := left - {name};
      r := AttributeOne(p, name, dpkg, ran, r);
      assert (order + [name])[..|order|] == order;
      order := order + [name];
    }
    AttributeIs(p, order, dpkg, ran, p.res);
    LandedIdsHold(p, order, dpkg);
  }

  predicate Landed(p: Plan, name: string, dpkg: map<string, string>)
    requires name in p.want
  {
    name in dpkg && dpkg[name] == p.want[name]
  }

  /** The ids of the names that landed, in the order taken. */
  function LandedIds(p: Plan, order: seq<string>, dpkg: map<string, string>): (r: seq<string>)
    requires p.want.Keys == p.idByName.Keys && forall n :: n in order ==> n in p.want
  {
    if order == [] then []
    else
      var name := order[|order| - 1];
      LandedIds(p, order[..|order| - 1], dpkg) + if Landed(p, name, dpkg) then [p.idByName[name]] else []
  }

  lemma {:induction false} LandedIdsHold(p: Plan, order: seq<string>, dpkg: map<string, string>)
    requires p.want.Keys == p.idByName.Keys && forall n :: n in order ==> n in p.want
    ensures forall id ::
              id in LandedIds(p, order, dpkg) <==>
              exists n :: n in order && p.idByName[n] == id && Landed(p, n, dpkg)
  {
    hide Landed;
    if order != [] {
      var front, name := order[..|order| - 1], order[|order| - 1];
      assert forall n :: n in order <==> n in front || n == name;
      LandedIdsHold(p, front, dpkg);
    }
  }

  lemma {:induction false} LandedIdsAre(p: Plan, order: seq<string>, dpkg: map<string, string>)
    requires p.want.Keys == p.idByName.Keys && forall n :: n in order ==> n in p.want
    requires NoRepeats(order) && forall m, n :: m in p.want && n in p.want && p.idByName[m] == p.idByName[n] ==> m == n
    ensures NoRepeats(LandedIds(p, order, dpkg))
    ensures forall id ::
              id in LandedIds(p, order, dpkg) <==>
              exists n :: n in order && p.idByName[n] == id && Landed(p, n, dpkg)
  {
    hide Landed;
    LandedIdsHold(p, order, dpkg);
    if order != [] {
      var front, name := order[..|order| - 1], order[|order| - 1];
      assert order == front + [name];
      LandedIdsAre(p, front, dpkg);
      assert name !in front;
      assert forall n :: n in front ==> p.idByName[n] != p.idByName[name];
      assert p.idByName[name] !in LandedIds(p, front, dpkg);
      NoRepeatsSnoc(LandedIds(p, front, dpkg), p.idByName[name]);
    }
  }

  /** Ids are installed or failed according to dpkg alone, each planned name once. */
  ghost predicate Attributed(p: Plan, order: seq<string>, dpkg: map<string, string>, r: Result, t: Result)
    requires p.want.Keys == p.idByName.Keys && forall n :: n in order ==> n in p.want
  {
    && t.installed == r.installed + LandedIds(p, order, dpkg)
    && (forall id ::
          id in t.failed <==>
          id in r.failed || exists n :: n in order && p.idByName[n] == id && !Landed(p, n, dpkg))
  }

  lemma AttributeOneIs(p: Plan, name: string, dpkg: map<string, string>, ran: bool, r: Result)
    requires name in p.want && p.want.Keys == p.idByName.Keys
    ensures var t, id := AttributeOne(p, name, dpkg, ran, r), p.idByName[name];
            if Landed(p, name, dpkg) then t == r.(installed := r.installed + [id])
            else t.installed == r.installed && t.failed.Keys == r.failed.Keys + {id}
  {
  }

  lemma {:induction false} AttributeIs(p: Plan, order: seq<string>, dpkg: map<string, string>, ran: bool, r: Result)
    requires p.want.Keys == p.idByName.Keys && forall n :: n in order ==> n in p.want
    ensures Attributed(p, order, dpkg, r, Attribute(p, order, dpkg, ran, r))
  {
    hide AttributeOne, Landed;
    if order != [] {
      var front, name := order[..|order| - 1], order[|order| - 1];
      assert forall n :: n in order <==> n in front || n == name;
      AttributeIs(p, front, dpkg, ran, r);
      AttributeOneIs(p, name, dpkg, ran, Attribute(p, front, dpkg, ran, r));
    }
  }

  /** Why a planned name did not land. */
  ghost predicate Explains(why: string, p: Plan, n: string, dpkg: map<string, string>, ran: bool)
    requires n in p.want
  {
    && (n in dpkg ==> why == "installed version is " + dpkg[n] + ", wanted " + p.want[n])
    && (n !in dpkg && ran ==> why == "package not installed after apt-get install")
    && (n !in dpkg && !ran ==> why == "dpkg does not have " + n)
  }

  /** A failure known before the run keeps its reason, and one dpkg shows has its own. */
  ghost predicate Reasoned(p: Plan, order: seq<string>, dpkg: map<string, string>, ran: bool, r: Result, t: Result)
    requires forall n :: n in order ==> n in p.want && n in p.idByName
  {
    && (forall id :: id in r.failed ==> id in t.failed && t.failed[id] == r.failed[id])
    && (forall id :: id in t.failed && id !in r.failed ==>
          exists n :: n in order && FailedFor(p, n, dpkg, ran, id, t.failed[id]))
  }

  ghost predicate FailedFor(p: Plan, n: string, dpkg: map<string, string>, ran: bool, id: string, why: string)
    requires n in p.want && n in p.idByName
  {
    p.idByName[n] == id && !Landed(p, n, dpkg) && Explains(why, p, n, dpkg, ran)
  }

  /** t has all of r's failures, and at most one more. */
  predicate OneMore(r: Result, t: Result, id: string) {
    && (forall k :: k in r.failed ==> k in t.failed && t.failed[k] == r.failed[k])
    && (forall k :: k in t.failed ==> k in r.failed || k == id)
  }

  lemma OneReason(p: Plan, name: string, dpkg: map<string, string>, ran: bool, r: Result)
    requires name in p.want && p.want.Keys == p.idByName.Keys
    ensures var t, id := AttributeOne(p, name, dpkg, ran, r), p.idByName[name];
            OneMore(r, t, id) && (id in t.failed && id !in r.failed ==> FailedFor(p, name, dpkg, ran, id, t.failed[id]))
  {
  }

  lemma ReasonedSnoc(p: Plan, front: seq<string>, name: string, dpkg: map<string, string>, ran: bool, r: Result,
      s: Result, t: Result)
    requires forall n :: n in front + [name] ==> n in p.want && n in p.idByName
    requires forall n :: n in front ==> n in p.want && n in p.idByName
    requires Reasoned(p, front, dpkg, ran, r, s) && name in p.idByName && OneMore(s, t, p.idByName[name])
    requires var id := p.idByName[name];
             id in t.failed && id !in s.failed ==> FailedFor(p, name, dpkg, ran, id, t.failed[id])
    ensures Reasoned(p, front + [name], dpkg, ran, r, t)
  {
    hide FailedFor;
    var order := front + [name];
    assert name in order && forall n :: n in front ==> n in order;
    forall id | id in t.failed && id !in r.failed
      ensures exists n :: n in order && FailedFor(p, n, dpkg, ran, id, t.failed[id])
    {
      if id in s.failed {
        var n :| n in front && FailedFor(p, n, dpkg, ran, id, s.failed[id]);
        assert n in order;
      }
    }
  }

  lemma {:induction false} ReasonsAreTrue(p: Plan, order: seq<string>, dpkg: map<string, string>, ran: bool, r: Result)
    requires p.want.Keys == p.idByName.Keys && forall n :: n in order ==> n in p.want
    ensures Reasoned(p, order, dpkg, ran, r, Attribute(p, order, dpkg, ran, r))
  {
    if order != [] {
      hide AttributeOne, Reasoned, FailedFor, OneMore;
      var front, name := order[..|order| - 1], order[|order| - 1];
      ReasonsAreTrue(p, front, dpkg, ran, r);
      var s := Attribute(p, front, dpkg, ran, r);
      OneReason(p, name, dpkg, ran, s);
      assert front + [name] == order;
      ReasonedSnoc(p, front, name, dpkg, ran, r, s, AttributeOne(p, name, dpkg, ran, s));
    }
  }

  // ---------------------------------------------------------------- every id accounted for

  /** The names of the plan for these ids, each once, in some order. */
  ghost predicate Enumerates(order: seq<string>, ids: seq<string>, offered: set<string>) {
    NoRepeats(order) && forall n :: n in order <==> n in AptPlan(Others(ids), offered, Refused(ids, EMPTY)).want
  }

  /** The whole of an apt install past the gate and the scan: prepare, plan, run, attribute. */
  ghost function AptResult(ids: seq<string>, offered: set<string>, order: seq<string>, dpkg: map<string, string>,
      ran: bool): Result
    requires Enumerates(order, ids, offered)
  {
    var p := AptPlan(Others(ids), offered, Refused(ids, EMPTY));
    AptPlanMeans(Others(ids), offered, Refused(ids, EMPTY));
    Attribute(p, order, dpkg, ran, p.res)
  }

  /** An id the plan takes to apt. */
  predicate Accepted(id: string, offered: set<string>) { !IsSelfPackage(id) && AptVerdict(id, offered).Accept? }

  function NameOf(id: string, offered: set<string>): string
    requires Accepted(id, offered)
  {
    AptVerdict(id, offered).name
  }

  /** What happens to one requested id: refused or rejected ids fail; of the accepted ids of one name,
      the one planned last is installed or failed according to dpkg, and any other is in neither. */
  lemma Fate(ids: seq<string>, offered: set<string>, order: seq<string>, dpkg: map<string, string>, ran: bool,
      id: string)
    requires Enumerates(order, ids, offered)
    requires id in ids
    ensures var r, p := AptResult(ids, offered, order, dpkg, ran), AptPlan(Others(ids), offered, Refused(ids, EMPTY));
            && (!Accepted(id, offered) ==> id !in r.installed && id in r.failed)
            && (Accepted(id, offered) ==>
                  var n := NameOf(id, offered);
                  && n in p.want && n in p.idByName
                  && (id in r.installed <==> p.idByName[n] == id && n in dpkg && n + "=" + dpkg[n] == id)
                  && (id in r.failed <==> p.idByName[n] == id && !(n in dpkg && n + "=" + dpkg[n] == id)))
  {
    var base := Refused(ids, EMPTY);
    var p := AptPlan(Others(ids), offered, base);
    OthersAre(ids);
    AptPlanMeans(Others(ids), offered, base);
    AttributeIs(p, order, dpkg, ran, p.res);
    PlanIsByName(p, Others(ids), offered, base);
    LandedIdsAre(p, order, dpkg);
    hide AptPlan, Attribute, LandedIds, Refused, Others, IsSelfPackage, AptVerdict, Parsed, GoodName, GoodVersion;
    hide Landed;
    assert id !in base.installed;
    if Accepted(id, offered) {
      var n := NameOf(id, offered);
      assert n in order && n in p.want;
      assert forall m :: m in order && p.idByName[m] == id ==> m == n;
      LandedIsById(p, n, dpkg, id, offered);
    }
  }

  /** And why: the agent's own package for being that, an id turned away for the reason it was, and one apt
      was given for what dpkg has instead. */
  lemma WhyItFailed(ids: seq<string>, offered: set<string>, order: seq<string>, dpkg: map<string, string>, ran: bool,
      id: string, p: Plan, r: Result)
    requires Enumerates(order, ids, offered) && r == AptResult(ids, offered, order, dpkg, ran)
    requires p == AptPlan(Others(ids), offered, Refused(ids, EMPTY)) && id in ids && id in r.failed
    ensures if IsSelfPackage(id) then r.failed[id] == SELF_REASON
            else if AptVerdict(id, offered).Reject? then r.failed[id] == AptVerdict(id, offered).why
            else exists n :: n in p.want && n in p.idByName && FailedFor(p, n, dpkg, ran, id, r.failed[id])
  {
    hide AptPlan, Attribute, Refused, Others, IsSelfPackage, AptVerdict, FailedFor, Reasoned, AptPlanIs;
    var base := Refused(ids, EMPTY);
    OthersAre(ids);
    AptPlanMeans(Others(ids), offered, base);
    PlanKeys(p, Others(ids), offered, base);
    AptPlanHandsOn(Others(ids), offered, base);
    ReasonsAreTrue(p, order, dpkg, ran, p.res);
    ReasonOf(p, order, dpkg, ran, p.res, r, id);
  }

  lemma PlanKeys(p: Plan, ids: seq<string>, offered: set<string>, r: Result)
    requires AptPlanIs(p, ids, offered, r)
    ensures p.want.Keys == p.idByName.Keys
    ensures forall id :: id in p.res.failed <==> id in r.failed || (id in ids && AptVerdict(id, offered).Reject?)
  {
    hide AptVerdict;
  }

  lemma ReasonOf(p: Plan, order: seq<string>, dpkg: map<string, string>, ran: bool, r: Result, t: Result, id: string)
    requires forall n :: n in order ==> n in p.want && n in p.idByName
    requires Reasoned(p, order, dpkg, ran, r, t) && id in t.failed
    ensures if id in r.failed then t.failed[id] == r.failed[id]
            else exists n :: n in p.want && n in p.idByName && FailedFor(p, n, dpkg, ran, id, t.failed[id])
  {
    hide FailedFor;
  }

  lemma PlanIsByName(p: Plan, ids: seq<string>, offered: set<string>, r: Result)
    requires AptPlanIs(p, ids, offered, r)
    ensures forall m, n :: m in p.want && n in p.want && p.idByName[m] == p.idByName[n] ==> m == n
  {
    hide AptVerdict;
  }

  /** An id is name and version, so dpkg having the wanted version is dpkg having the id. */
  lemma LandedIsById(p: Plan, n: string, dpkg: map<string, string>, id: string, offered: set<string>)
    requires n in p.want && p.want.Keys == p.idByName.Keys && AptVerdict(p.idByName[n], offered) == Accept(n, p.want[n])
    ensures p.idByName[n] == id ==> (Landed(p, n, dpkg) <==> n in dpkg && n + "=" + dpkg[n] == id)
  {
    hide AptVerdict, Parsed, GoodName, GoodVersion;
    var have := n + "=" + p.want[n];
    assert p.idByName[n] == have && have[|n| + 1..] == p.want[n];
    if n in dpkg {
      assert (n + "=" + dpkg[n])[|n| + 1..] == dpkg[n];
    }
  }

  predicate Accounted(r: Result, id: string) { (id in r.installed) != (id in r.failed) }

  /** No two ids taken to apt name the same package. */
  predicate DistinctNames(ids: seq<string>, offered: set<string>) {
    forall a, b :: a in ids && b in ids && Accepted(a, offered) && Accepted(b, offered) ==>
      (NameOf(a, offered) == NameOf(b, offered) ==> a == b)
  }

  /** Every requested id is reported exactly once if and only if no two of those taken to apt name the
      same package: the maps from name to id keep one. */
  lemma EveryIdAccountedIff(ids: seq<string>, offered: set<string>, order: seq<string>, dpkg: map<string, string>,
      ran: bool)
    requires Enumerates(order, ids, offered)
    ensures (forall id :: id in ids ==> Accounted(AptResult(ids, offered, order, dpkg, ran), id))
            <==> DistinctNames(ids, offered)
    ensures NoRepeats(AptResult(ids, offered, order, dpkg, ran).installed)
  {
    var base := Refused(ids, EMPTY);
    var p := AptPlan(Others(ids), offered, base);
    var r := AptResult(ids, offered, order, dpkg, ran);
    OthersAre(ids);
    AptPlanMeans(Others(ids), offered, base);
    PlanIsByName(p, Others(ids), offered, base);
    AttributeIs(p, order, dpkg, ran, p.res);
    LandedIdsAre(p, order, dpkg);
    assert r.installed == LandedIds(p, order, dpkg);
    hide AptPlan, Attribute, LandedIds, Refused, Others, IsSelfPackage, AptVerdict, Parsed, AptResult;
    forall id | id in ids
      ensures Accounted(r, id)
              <==> (Accepted(id, offered) ==>
                      NameOf(id, offered) in p.idByName && p.idByName[NameOf(id, offered)] == id)
    {
      Fate(ids, offered, order, dpkg, ran, id);
    }
    AccountedIffDistinct(p, ids, offered, base);
  }

  lemma AccountedIffDistinct(p: Plan, ids: seq<string>, offered: set<string>, r: Result)
    requires AptPlanIs(p, Others(ids), offered, r)
    ensures (forall id :: id in ids && Accepted(id, offered) ==>
               NameOf(id, offered) in p.idByName && p.idByName[NameOf(id, offered)] == id)
            <==> DistinctNames(ids, offered)
  {
    OthersAre(ids);
    hide Others, IsSelfPackage, AptVerdict;
    forall id | id in ids && Accepted(id, offered)
      ensures NameOf(id, offered) in p.idByName && Accepted(p.idByName[NameOf(id, offered)], offered) &&
              p.idByName[NameOf(id, offered)] in ids
              && NameOf(p.idByName[NameOf(id, offered)], offered) == NameOf(id, offered)
    {
    }
  }

  /** A scan that offers one version per package is enough. */
  lemma OneVersionPerNameIsEnough(ids: seq<string>, offered: set<string>)
    requires forall a, b :: a in offered && b in offered && Parsed(a).Accept? && Parsed(b).Accept? ==>
               (Parsed(a).name == Parsed(b).name ==> a == b)
    ensures DistinctNames(ids, offered)
  {
    hide Parsed, IsSelfPackage;
  }

  /** An id reported installed was requested, is offered, does not name the agent, and dpkg has exactly
      its version. */
  lemma InstalledIsTrue(ids: seq<string>, offered: set<string>, order: seq<string>, dpkg: map<string, string>,
      ran: bool, id: string)
    requires Enumerates(order, ids, offered)
    requires id in AptResult(ids, offered, order, dpkg, ran).installed
    ensures id in ids && id in offered && Parsed(id).Accept? && BaseName(Parsed(id).name) !in SELF
    ensures Parsed(id).name in dpkg && dpkg[Parsed(id).name] == Parsed(id).version
  {
    var base := Refused(ids, EMPTY);
    var p := AptPlan(Others(ids), offered, base);
    OthersAre(ids);
    AptPlanMeans(Others(ids), offered, base);
    AttributeIs(p, order, dpkg, ran, p.res);
    PlanIsByName(p, Others(ids), offered, base);
    LandedIdsAre(p, order, dpkg);
    hide AptPlan, Attribute, LandedIds, Refused, Others, IsSelfPackage, Parsed, BaseName;
    var n :| n in order && p.idByName[n] == id && Landed(p, n, dpkg);
    SelfIsByName(Parsed(id).name, Parsed(id).version);
  }

  datatype Outcome = Nothing | TooSoon | Busy | ScanFailed | RunFailed | Finished

  /** aptManager.Install. scan is what the scan offers, or None when it failed; dpkg and ran are what the
      package manager left behind. */
  method AptInstall(requested: seq<string>, tooSoon: bool, busy: bool, scan: Option<set<string>>,
      dpkg: map<string, string>, ran: bool)
      returns (r: Result, o: Outcome, ghost order: seq<string>)
    ensures var ids := Dedupe(requested); var left := Others(ids);
            && (o == Nothing <==> ids == [] || (!tooSoon && left == []))
            && (o == TooSoon <==> ids != [] && tooSoon)
            && (o == Busy <==> !tooSoon && left != [] && busy)
            && (o == ScanFailed <==> !tooSoon && left != [] && !busy && scan.None?)
            && (o == RunFailed <==> && !tooSoon && left != [] && !busy && scan.Some? && !ran && r.installed == []
                                    && Taken(left, scan.value) != [])
    ensures o in {Nothing, TooSoon, Busy, ScanFailed} ==> r.installed == []
    ensures o == TooSoon ==> forall id :: id in r.failed <==> id in Dedupe(requested)
    ensures o == TooSoon ==> forall id :: id in r.failed ==> r.failed[id] == TOO_SHORT
    ensures o in {Busy, ScanFailed} ==> r == Refused(Dedupe(requested), EMPTY)
    ensures o == Nothing ==> r == Refused(Dedupe(requested), EMPTY) && Others(Dedupe(requested)) == []
    ensures o in {RunFailed, Finished} ==>
              && !tooSoon && !busy && scan.Some? && Enumerates(order, Dedupe(requested), scan.value)
              && r == AptResult(Dedupe(requested), scan.value, order, dpkg, ran)
              && (o == RunFailed ==> !ran && r.installed == [])
  {
    order := [];
    hide AptPlan, Attribute, IsSelfPackage;
    var ids := DedupeIds(requested);
    r := EMPTY;
    if ids == [] {
      return r, Nothing, [];
    }
    var left;
    left, r := PrepareInstall(ids, tooSoon, r);
    if tooSoon {
      return r, TooSoon, [];
    }
    if left == [] {
      return r, Nothing, [];
    }
    if busy {
      return r, Busy, [];
    }
    if scan.None? {
      return r, ScanFailed, [];
    }
    var p := AptInstallPlan(left, scan.value, r);
    AptPlanMeans(left, scan.value, r);
    AptPlanHandsOn(left, scan.value, r);
    if p.specs == [] {
      AttributeNothing(p, dpkg, ran);
      return p.res, Finished, [];
    }
    r, order := AttributeAptResult(p, dpkg, ran);
    o := if !ran && r.installed == [] then RunFailed else Finished;
  }

  lemma AttributeNothing(p: Plan, dpkg: map<string, string>, ran: bool)
    requires p.want.Keys == p.idByName.Keys
    ensures Attribute(p, [], dpkg, ran, p.res) == p.res
  {
  }

  // ---------------------------------------------------------------- pacman

  /** The pacman plan keeps the first id of a name and drops the rest without a word. */
  function PacmanPlanned(p: Plan, id: string, v: Verdict): Plan {
    match v
    case Reject(why) => p.(res := Fail(p.res, id, why))
    case Accept(name, version) =>
      if name in p.idByName then p else p.(specs := p.specs + [name], idByName := p.idByName[name := id])
  }

  function PacmanPlan(ids: seq<string>, names: set<string>, r: Result): Plan {
    if ids == [] then Plan([], map[], map[], r)
    else PacmanPlanned(PacmanPlan(ids[..|ids| - 1], names, r), ids[|ids| - 1], PacmanVerdict(ids[|ids| - 1], names))
  }

  method PacmanInstallPlan(ids: seq<string>, names: set<string>, r: Result) returns (p: Plan)
    ensures p == PacmanPlan(ids, names, r)
  {
    p := Plan([], map[], map[], r);
    for i := 0 to |ids|
      invariant p == PacmanPlan(ids[..i], names, r)
    {
      hide Parsed, PacmanPlanned;
      assert ids[..i + 1][..i] == ids[..i];
      var v := Judge(ids[i]);
      if v.Accept? && v.name !in names {
        v := Reject(NOT_OFFERED);
      }
      p := PacmanPlanned(p, ids[i], v);
    }
    assert ids[..|ids|] == ids;
  }

  ghost predicate PacmanPlanIs(p: Plan, ids: seq<string>, names: set<string>, r: Result) {
    && p.res.installed == r.installed
    && (forall id :: id in p.res.failed <==> id in r.failed || (id in ids && PacmanVerdict(id, names).Reject?))
    && (forall n :: n in p.specs <==> n in p.idByName)
    && (forall n :: n in p.idByName ==>
          var v := PacmanVerdict(p.idByName[n], names); p.idByName[n] in ids && v.Accept? && v.name == n)
    && (forall id :: id in ids && PacmanVerdict(id, names).Accept? ==> PacmanVerdict(id, names).name in p.idByName)
  }

  lemma PacmanPlannedKeeps(p: Plan, ids: seq<string>, id: string, names: set<string>, r: Result)
    requires PacmanPlanIs(p, ids, names, r)
    ensures PacmanPlanIs(PacmanPlanned(p, id, PacmanVerdict(id, names)), ids + [id], names, r)
  {
    hide PacmanVerdict, Parsed, GoodName, GoodVersion;
    assert forall x :: x in ids + [id] <==> x in ids || x == id;
  }

  lemma EmptyPacmanPlan(names: set<string>, r: Result)
    ensures PacmanPlanIs(Plan([], map[], map[], r), [], names, r)
  {
  }

  lemma {:induction false} PacmanPlanMeans(ids: seq<string>, names: set<string>, r: Result)
    ensures PacmanPlanIs(PacmanPlan(ids, names, r), ids, names, r)
  {
    hide PacmanPlanIs, PacmanPlanned, PacmanVerdict;
    if ids == [] {
      EmptyPacmanPlan(names, r);
    } else {
      var front, id := ids[..|ids| - 1], ids[|ids| - 1];
      PacmanPlanMeans(front, names, r);
      PacmanPlannedKeeps(PacmanPlan(front, names, r), front, id, names, r);
      assert front + [id] == ids;
    }
  }

  /** The first accepted id of a name is the one kept. */
  lemma {:induction false} FirstOfNameIsPlanned(ids: seq<string>, names: set<string>, r: Result, k: nat)
    requires k < |ids| && PacmanVerdict(ids[k], names).Accept?
    requires forall j :: 0 <= j < k && PacmanVerdict(ids[j], names).Accept? ==>
               PacmanVerdict(ids[j], names).name != PacmanVerdict(ids[k], names).name
    ensures var p, n := PacmanPlan(ids, names, r), PacmanVerdict(ids[k], names).name;
            n in p.specs && n in p.idByName && p.idByName[n] == ids[k]
  {
    hide PacmanVerdict, PacmanPlanIs, PacmanPlanned;
    var front, id := ids[..|ids| - 1], ids[|ids| - 1];
    var p := PacmanPlan(front, names, r);
    assert forall j :: 0 <= j < |front| ==> front[j] == ids[j];
    if k < |front| {
      FirstOfNameIsPlanned(front, names, r, k);
      PlannedKeepsEarlier(p, id, PacmanVerdict(id, names), PacmanVerdict(ids[k], names).name);
    } else {
      PacmanPlanMeans(front, names, r);
      NotPlannedBefore(p, front, names, r, PacmanVerdict(id, names).name);
      PlannedTakesNew(p, id, PacmanVerdict(id, names));
    }
  }

  lemma PlannedKeepsEarlier(p: Plan, id: string, v: Verdict, name: string)
    requires name in p.idByName && name in p.specs
    ensures var t := PacmanPlanned(p, id, v);
            name in t.specs && name in t.idByName && t.idByName[name] == p.idByName[name]
  {
  }

  lemma PlannedTakesNew(p: Plan, id: string, v: Verdict)
    requires v.Accept? && v.name !in p.idByName
    ensures var t := PacmanPlanned(p, id, v); v.name in t.specs && v.name in t.idByName && t.idByName[v.name] == id
  {
  }

  lemma NotPlannedBefore(p: Plan, ids: seq<string>, names: set<string>, r: Result, name: string)
    requires PacmanPlanIs(p, ids, names, r)
    requires forall j :: 0 <= j < |ids| && PacmanVerdict(ids[j], names).Accept? ==>
               PacmanVerdict(ids[j], names).name != name
    ensures name !in p.idByName
  {
    hide PacmanVerdict;
  }

  predicate PacmanDistinctNames(ids: seq<string>, names: set<string>) {
    forall a, b :: a in ids && b in ids && PacmanVerdict(a, names).Accept? && PacmanVerdict(b, names).Accept? ==>
      (PacmanVerdict(a, names).name == PacmanVerdict(b, names).name ==> a == b)
  }

  /** An id is either failed or handed on under its name, for every id, if and only if no two accepted
      ids name the same package. */
  lemma PacmanAccountsIff(ids: seq<string>, names: set<string>)
    ensures var p := PacmanPlan(ids, names, EMPTY);
            (forall id :: id in ids ==> id in p.res.failed || exists n :: n in p.idByName && p.idByName[n] == id)
            <==> PacmanDistinctNames(ids, names)
  {
    PacmanPlanMeans(ids, names, EMPTY);
    hide PacmanVerdict, PacmanPlan;
    var p := PacmanPlan(ids, names, EMPTY);
    forall id | id in ids
      ensures (id in p.res.failed || exists n :: n in p.idByName && p.idByName[n] == id) <==>
              (PacmanVerdict(id, names).Accept? ==> p.idByName[PacmanVerdict(id, names).name] == id)
    {
    }
  }
}
