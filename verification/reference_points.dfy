/**
 * Reference points in space and the groups that fire an action when all of
 * their points have been touched by the controller tip within a grace
 * period (the hit-detection block of the GUI loop, the point and group
 * editors and the action-completion bookkeeping of the main application).
 */
module ReferencePoints {
  import opened Common
  import opened Text
  import opened Models
  import opened RepFile

  /** A point the tip can hit; `chainParent` must be hit first for it to become active. */
  datatype RefPoint = RefPoint(id: string, position: Vec3, hit: bool, isActive: bool, chainParent: Option<string>)

  /** What a group does when it fires (`{"type": ..., "detail": ...}`). */
  datatype Action = Action(kind: string, detail: string)

  datatype Group = Group(name: string, pointIds: set<string>, action: Action)

  /** One entry of the insertion-ordered group dictionary. */
  datatype GroupEntry = GroupEntry(id: string, group: Group)

  /** Dictionary keys are unique. */
  predicate DistinctIds(groups: seq<GroupEntry>)
  {
    forall j, k :: 0 <= j < k < |groups| ==> groups[j].id != groups[k].id
  }

  function GroupIds(groups: seq<GroupEntry>): set<string>
  {
    set e | e in groups :: e.id
  }

  function WorldIds(points: seq<RefPoint>): set<string>
  {
    set p | p in points :: p.id
  }

  // ---------------------------------------------------------------------
  // Hit detection, step 1: expiry

  /** Hits older than the grace period are forgotten. */
  function Expire(history: map<string, real>, now: real, grace: real): (h: map<string, real>)
    ensures forall pid :: pid in h <==> pid in history && now - history[pid] <= grace
    ensures forall pid :: pid in h ==> h[pid] == history[pid]
  {
    map pid | pid in history && now - history[pid] <= grace :: history[pid]
  }

  // ---------------------------------------------------------------------
  // Hit detection, step 2: registering hits, point by point

  /** A point is active when it has no (non-empty) chain parent or its parent is in the hit history. */
  predicate IsActive(p: RefPoint, history: map<string, real>)
  {
    !Truthy(p.chainParent) || p.chainParent.value in history
  }

  /** The tip is strictly closer than the tolerance (compared on squares). */
  predicate WithinReach(p: RefPoint, tip: Vec3, tolerance: real)
  {
    DistanceBelow(tip.Sub(p.position).NormSq(), tolerance)
  }

  function Marked(p: RefPoint, history: map<string, real>, tip: Vec3, tolerance: real): RefPoint
  {
    var active := IsActive(p, history);
    p.(isActive := active, hit := active && WithinReach(p, tip, tolerance))
  }

  datatype Registered = Registered(points: seq<RefPoint>, history: map<string, real>, newlyHit: set<string>)

  /**
   * The registration pass over the points in list order. The history seen
   * by a point already holds the hits of the points before it, so a chain
   * can complete within one pass.
   */
  function Register(points: seq<RefPoint>, history: map<string, real>, tip: Vec3, tolerance: real, now: real): (r: Registered)
    ensures |r.points| == |points|
    ensures forall k :: 0 <= k < |points| ==>
      r.points[k].id == points[k].id && r.points[k].position == points[k].position && r.points[k].chainParent == points[k].chainParent
    ensures forall k :: 0 <= k < |points| && r.points[k].hit ==> r.points[k].isActive && points[k].id in r.history
    ensures forall pid :: pid in history ==> pid in r.history && r.history[pid] == history[pid]
    ensures forall pid :: pid in r.history && pid !in history ==> r.history[pid] == now && pid in r.newlyHit
    ensures forall pid :: pid in r.newlyHit ==> pid in r.history && pid !in history
    decreases |points|
  {
    if |points| == 0 then Registered([], history, {})
    else RegisterNext(Register(points[..|points| - 1], history, tip, tolerance, now), points[|points| - 1], tip, tolerance, now)
  }

  /** One point of the registration pass, against the history the earlier points left. */
  function RegisterNext(prev: Registered, q: RefPoint, tip: Vec3, tolerance: real, now: real): Registered
  {
    var p := Marked(q, prev.history, tip, tolerance);
    if p.hit && p.id !in prev.history then
      Registered(prev.points + [p], prev.history[p.id := now], prev.newlyHit + {p.id})
    else
      Registered(prev.points + [p], prev.history, prev.newlyHit)
  }

  lemma RegisterSnoc(points: seq<RefPoint>, i: nat, history: map<string, real>, tip: Vec3, tolerance: real, now: real)
    requires i < |points|
    ensures Register(points[..i + 1], history, tip, tolerance, now)
            == RegisterNext(Register(points[..i], history, tip, tolerance, now), points[i], tip, tolerance, now)
  {
    assert points[..i + 1][..i] == points[..i];
  }

  /** Each point is judged against the history left by the points before it. */
  lemma {:induction false} MarkedAgainstEarlierHits(points: seq<RefPoint>, history: map<string, real>, tip: Vec3, tolerance: real, now: real, k: nat)
    requires k < |points|
    ensures Register(points, history, tip, tolerance, now).points[k]
         == Marked(points[k], Register(points[..k], history, tip, tolerance, now).history, tip, tolerance)
    decreases |points|
  {
    var n := |points| - 1;
    if k < n {
      MarkedAgainstEarlierHits(points[..n], history, tip, tolerance, now, k);
      assert points[..n][..k] == points[..k];
    } else {
      assert points[..k] == points[..n];
    }
  }

  /** The tip touching a point at its own position is within any positive tolerance. */
  lemma TouchingIsWithinReach(p: RefPoint, tip: Vec3)
    requires p.position == tip
    ensures WithinReach(p, tip, 1.0)
  {
    assert tip.Sub(p.position) == Vec3(0.0, 0.0, 0.0);
  }

  /** A child listed after its parent activates in the same pass the parent is hit. */
  lemma ChainCompletesInOnePass(tip: Vec3)
    ensures var parent := RefPoint("a", tip, false, true, None);
            var child := RefPoint("b", tip, false, false, Some("a"));
            var r := Register([parent, child], map[], tip, 1.0, 5.0);
            r.points[1].hit && r.newlyHit == {"a", "b"}
  {
    var parent := RefPoint("a", tip, false, true, None);
    var child := RefPoint("b", tip, false, false, Some("a"));
    TouchingIsWithinReach(parent, tip);
    TouchingIsWithinReach(child, tip);
    assert [parent, child][..1] == [parent];
    assert [parent][..0] == [];
    var r0 := Register([], map[], tip, 1.0, 5.0);
    assert r0 == Registered([], map[], {});
    var r1 := Register([parent], map[], tip, 1.0, 5.0);
    assert Marked(parent, map[], tip, 1.0).hit;
    assert r1.history == map["a" := 5.0] && r1.newlyHit == {"a"};
    assert IsActive(child, r1.history);
  }

  /** Listed before its parent, the same child stays inactive on that pass. */
  lemma ChainOrderMatters(tip: Vec3)
    ensures var parent := RefPoint("a", tip, false, true, None);
            var child := RefPoint("b", tip, false, false, Some("a"));
            var r := Register([child, parent], map[], tip, 1.0, 5.0);
            !r.points[0].hit && r.newlyHit == {"a"}
  {
    var parent := RefPoint("a", tip, false, true, None);
    var child := RefPoint("b", tip, false, false, Some("a"));
    TouchingIsWithinReach(parent, tip);
    assert [child, parent][..1] == [child];
    assert [child][..0] == [];
    var r0 := Register([], map[], tip, 1.0, 5.0);
    assert r0 == Registered([], map[], {});
    var r1 := Register([child], map[], tip, 1.0, 5.0);
    assert !IsActive(child, map[]);
    assert r1.history == map[] && r1.newlyHit == {};
  }

  // ---------------------------------------------------------------------
  // Hit detection, step 3: group completion

  /** Members of the group that still exist as points. */
  function ValidMembers(g: Group, worldIds: set<string>): set<string>
  {
    g.pointIds * worldIds
  }

  /** `group_last_triggered.get(id, 0)`. */
  function LastTriggered(lastTriggered: map<string, real>, id: string): real
  {
    if id in lastTriggered then lastTriggered[id] else 0.0
  }

  /** All members are in the history and no two of their hit times are further apart than the grace period. */
  predicate WithinGrace(history: map<string, real>, members: set<string>, grace: real)
  {
    members <= history.Keys && forall a, b :: a in members && b in members ==> history[a] - history[b] <= grace
  }

  /**
   * A group fires when it has valid members, one of them was newly hit,
   * all of them are in the history within the grace period, and strictly
   * more than the action interval has passed since it last fired.
   */
  predicate GroupFires(g: GroupEntry, worldIds: set<string>, newlyHit: set<string>, history: map<string, real>,
                       lastTriggered: map<string, real>, now: real, grace: real, interval: real)
  {
    var valid := ValidMembers(g.group, worldIds);
    valid != {} && newlyHit * valid != {} && WithinGrace(history, valid, grace)
    && now - LastTriggered(lastTriggered, g.id) > interval
  }

  /** The groups that fire, in dictionary order. */
  function Fired(groups: seq<GroupEntry>, worldIds: set<string>, newlyHit: set<string>, history: map<string, real>,
                 lastTriggered: map<string, real>, now: real, grace: real, interval: real): (r: seq<GroupEntry>)
    ensures |r| <= |groups|
    decreases |groups|
  {
    if |groups| == 0 then []
    else
      var prev := Fired(groups[..|groups| - 1], worldIds, newlyHit, history, lastTriggered, now, grace, interval);
      var g := groups[|groups| - 1];
      if GroupFires(g, worldIds, newlyHit, history, lastTriggered, now, grace, interval) then prev + [g] else prev
  }

  /** Exactly the groups meeting the firing rule are fired. */
  lemma {:induction false} FiredMembers(groups: seq<GroupEntry>, worldIds: set<string>, newlyHit: set<string>, history: map<string, real>,
                                        lastTriggered: map<string, real>, now: real, grace: real, interval: real)
    ensures forall g :: g in Fired(groups, worldIds, newlyHit, history, lastTriggered, now, grace, interval)
                    <==> g in groups && GroupFires(g, worldIds, newlyHit, history, lastTriggered, now, grace, interval)
    decreases |groups|
  {
    if |groups| > 0 {
      var init := groups[..|groups| - 1];
      FiredMembers(init, worldIds, newlyHit, history, lastTriggered, now, grace, interval);
      assert groups == init + [groups[|groups| - 1]];
    }
  }

  function FiredIds(fired: seq<GroupEntry>): set<string>
  {
    set g | g in fired :: g.id
  }

  /** Every valid member of every group that fired. */
  function ClearedBy(fired: seq<GroupEntry>, worldIds: set<string>): set<string>
  {
    set g, pid | g in fired && pid in ValidMembers(g.group, worldIds) :: pid
  }

  /** `group_last_triggered` after the fired groups are stamped with `now`. */
  function Stamped(lastTriggered: map<string, real>, fired: seq<GroupEntry>, now: real): map<string, real>
  {
    map id | id in lastTriggered.Keys + FiredIds(fired) :: if id in FiredIds(fired) then now else lastTriggered[id]
  }

  function GroupsOf(fired: seq<GroupEntry>): (r: seq<Group>)
    ensures |r| == |fired| && forall k :: 0 <= k < |fired| ==> r[k] == fired[k].group
  {
    seq(|fired|, k requires 0 <= k < |fired| => fired[k].group)
  }

  datatype HitOutcome = HitOutcome(points: seq<RefPoint>, history: map<string, real>,
                                   lastTriggered: map<string, real>, triggered: seq<Group>)

  /** One pass of hit detection: expire, register, check the groups only if something was newly hit, clear. */
  function HitTick(points: seq<RefPoint>, groups: seq<GroupEntry>, history: map<string, real>, lastTriggered: map<string, real>,
                   tip: Vec3, now: real, grace: real, tolerance: real, interval: real): HitOutcome
  {
    var reg := Register(points, Expire(history, now, grace), tip, tolerance, now);
    var fired := if reg.newlyHit == {} then []
                 else Fired(groups, WorldIds(reg.points), reg.newlyHit, reg.history, lastTriggered, now, grace, interval);
    HitOutcome(reg.points, reg.history - ClearedBy(fired, WorldIds(reg.points)),
               Stamped(lastTriggered, fired, now), GroupsOf(fired))
  }

  /**
   * After a pass, no remembered hit is older than the grace period, and a
   * hit that survives keeps the time it was first registered.
   */
  lemma HistoryStaysFresh(points: seq<RefPoint>, groups: seq<GroupEntry>, history: map<string, real>, lastTriggered: map<string, real>,
                          tip: Vec3, now: real, grace: real, tolerance: real, interval: real)
    requires 0.0 <= grace
    ensures var out := HitTick(points, groups, history, lastTriggered, tip, now, grace, tolerance, interval);
            (forall pid :: pid in out.history ==> now - out.history[pid] <= grace)
            && (forall pid :: pid in history && pid in out.history && now - history[pid] <= grace ==> out.history[pid] == history[pid])
  {
    var h1 := Expire(history, now, grace);
    var reg := Register(points, h1, tip, tolerance, now);
    var out := HitTick(points, groups, history, lastTriggered, tip, now, grace, tolerance, interval);
    forall pid | pid in out.history
      ensures now - out.history[pid] <= grace
    {
      assert pid in reg.history && out.history[pid] == reg.history[pid];
      if pid !in h1 {
        assert reg.history[pid] == now;
      }
    }
  }

  /**
   * A group is stamped with `now` exactly when it meets the firing rule
   * against the history after registration; every other stamp is kept.
   */
  lemma StampRule(points: seq<RefPoint>, groups: seq<GroupEntry>, history: map<string, real>, lastTriggered: map<string, real>,
                  tip: Vec3, now: real, grace: real, tolerance: real, interval: real, g: GroupEntry)
    requires DistinctIds(groups) && g in groups
    ensures var reg := Register(points, Expire(history, now, grace), tip, tolerance, now);
            var out := HitTick(points, groups, history, lastTriggered, tip, now, grace, tolerance, interval);
            LastTriggered(out.lastTriggered, g.id)
            == if GroupFires(g, WorldIds(points), reg.newlyHit, reg.history, lastTriggered, now, grace, interval)
               then now else LastTriggered(lastTriggered, g.id)
  {
    var reg := Register(points, Expire(history, now, grace), tip, tolerance, now);
    SameIdsAfterRegister(points, reg.points);
    var w := WorldIds(points);
    var all := Fired(groups, w, reg.newlyHit, reg.history, lastTriggered, now, grace, interval);
    var fired := if reg.newlyHit == {} then [] else all;
    var out := HitTick(points, groups, history, lastTriggered, tip, now, grace, tolerance, interval);
    assert out.lastTriggered == Stamped(lastTriggered, fired, now);
    StampedAt(lastTriggered, fired, now, g.id);
    if reg.newlyHit != {} {
      FiredIdMeans(groups, w, reg.newlyHit, reg.history, lastTriggered, now, grace, interval, g);
    }
  }

  /** With distinct ids, a group's id is among the fired ids exactly when that group fires. */
  lemma FiredIdMeans(groups: seq<GroupEntry>, worldIds: set<string>, newlyHit: set<string>, history: map<string, real>,
                     lastTriggered: map<string, real>, now: real, grace: real, interval: real, g: GroupEntry)
    requires DistinctIds(groups) && g in groups
    ensures g.id in FiredIds(Fired(groups, worldIds, newlyHit, history, lastTriggered, now, grace, interval))
            <==> GroupFires(g, worldIds, newlyHit, history, lastTriggered, now, grace, interval)
  {
    var fired := Fired(groups, worldIds, newlyHit, history, lastTriggered, now, grace, interval);
    FiredMembers(groups, worldIds, newlyHit, history, lastTriggered, now, grace, interval);
    if g.id in FiredIds(fired) {
      var f :| f in fired && f.id == g.id;
      var a :| 0 <= a < |groups| && groups[a] == f;
      var b :| 0 <= b < |groups| && groups[b] == g;
      assert a == b;
    }
  }

  /** A stamp after the pass: `now` for a fired group, the old stamp otherwise. */
  lemma StampedAt(lastTriggered: map<string, real>, fired: seq<GroupEntry>, now: real, id: string)
    ensures LastTriggered(Stamped(lastTriggered, fired, now), id)
            == if id in FiredIds(fired) then now else LastTriggered(lastTriggered, id)
  {
  }

  /**
   * A remembered hit is cleared exactly when it is a valid member of a
   * group that fires.
   */
  lemma ClearRule(points: seq<RefPoint>, groups: seq<GroupEntry>, history: map<string, real>, lastTriggered: map<string, real>,
                  tip: Vec3, now: real, grace: real, tolerance: real, interval: real)
    ensures var reg := Register(points, Expire(history, now, grace), tip, tolerance, now);
            var out := HitTick(points, groups, history, lastTriggered, tip, now, grace, tolerance, interval);
            forall pid :: pid in out.history <==>
              pid in reg.history
              && forall g :: g in groups && GroupFires(g, WorldIds(points), reg.newlyHit, reg.history, lastTriggered, now, grace, interval)
                             ==> pid !in ValidMembers(g.group, WorldIds(points))
  {
    var reg := Register(points, Expire(history, now, grace), tip, tolerance, now);
    SameIdsAfterRegister(points, reg.points);
    var w := WorldIds(points);
    FiredMembers(groups, w, reg.newlyHit, reg.history, lastTriggered, now, grace, interval);
  }

  /** Registration does not rename points. */
  lemma SameIdsAfterRegister(points: seq<RefPoint>, marked: seq<RefPoint>)
    requires |marked| == |points|
    requires forall k :: 0 <= k < |points| ==> marked[k].id == points[k].id
    ensures WorldIds(marked) == WorldIds(points)
  {
    forall id | id in WorldIds(points) ensures id in WorldIds(marked)
    {
      var k :| 0 <= k < |points| && points[k].id == id;
      assert marked[k] in marked;
    }
    forall id | id in WorldIds(marked) ensures id in WorldIds(points)
    {
      var k :| 0 <= k < |marked| && marked[k].id == id;
      assert points[k] in points;
    }
  }

  /** The cooldown is strict: a group is not fired again exactly `interval` after it last fired. */
  lemma CooldownIsStrict(g: GroupEntry, worldIds: set<string>, newlyHit: set<string>, history: map<string, real>,
                         lastTriggered: map<string, real>, now: real, grace: real, interval: real)
    requires g.id in lastTriggered && now == lastTriggered[g.id] + interval
    ensures !GroupFires(g, worldIds, newlyHit, history, lastTriggered, now, grace, interval)
  {
  }

  // ---------------------------------------------------------------------
  // Deleting points

  function Ids(s: seq<string>): set<string>
  {
    set id | id in s
  }

  /** A surviving point loses a chain parent that was deleted. */
  function Unparent(p: RefPoint, ids: set<string>): RefPoint
  {
    if p.chainParent.Some? && p.chainParent.value in ids then p.(chainParent := None) else p
  }

  /** The points left after deleting `ids`, in order, with dangling chain parents cleared. */
  function PointsWithout(points: seq<RefPoint>, ids: set<string>): (r: seq<RefPoint>)
    ensures forall p :: p in r ==> p.id !in ids && (p.chainParent.Some? ==> p.chainParent.value !in ids)
    ensures forall p :: p in points && p.id !in ids ==> Unparent(p, ids) in r
  {
    if |points| == 0 then []
    else
      var rest := PointsWithout(points[1..], ids);
      assert forall p :: p in points ==> p == points[0] || p in points[1..];
      if points[0].id in ids then rest else [Unparent(points[0], ids)] + rest
  }

  lemma {:induction false} PointsWithoutCompose(points: seq<RefPoint>, ids: set<string>, id: string)
    ensures PointsWithout(PointsWithout(points, ids), {id}) == PointsWithout(points, ids + {id})
    decreases |points|
  {
    if |points| > 0 {
      PointsWithoutCompose(points[1..], ids, id);
      var rest := PointsWithout(points[1..], ids);
      if points[0].id !in ids {
        var q := Unparent(points[0], ids);
        assert ([q] + rest)[1..] == rest;
        assert Unparent(q, {id}) == Unparent(points[0], ids + {id});
      }
    }
  }

  /** Every group forgets the deleted ids. */
  function GroupsWithout(groups: seq<GroupEntry>, ids: set<string>): (r: seq<GroupEntry>)
    ensures |r| == |groups|
    ensures forall k :: 0 <= k < |groups| ==>
      r[k].id == groups[k].id && r[k].group.name == groups[k].group.name && r[k].group.action == groups[k].group.action
      && r[k].group.pointIds == groups[k].group.pointIds - ids
  {
    seq(|groups|, k requires 0 <= k < |groups| =>
      groups[k].(group := groups[k].group.(pointIds := groups[k].group.pointIds - ids)))
  }

  // ---------------------------------------------------------------------
  // Creating groups

  /** The k-th name tried for a new group: "New Group", then "New Group (2)", "New Group (3)", ... */
  function CandidateName(k: nat): string
  {
    if k <= 1 then "New Group" else "New Group (" + NatToString(k) + ")"
  }

  lemma CandidateNameInjective(j: nat, k: nat)
    requires j >= 1 && k >= 1 && CandidateName(j) == CandidateName(k)
    ensures j == k
  {
    if j >= 2 && k >= 2 {
      var sj := CandidateName(j);
      assert sj[11..|sj| - 1] == NatToString(j);
      assert sj[11..|sj| - 1] == NatToString(k);
      NatToStringInjective(j, k);
    }
  }

  function GroupNames(groups: seq<GroupEntry>): set<string>
  {
    set e | e in groups :: e.group.name
  }

  /** Dictionary assignment: replace the entry with that id in place, or append a new one. */
  function PutGroup(groups: seq<GroupEntry>, e: GroupEntry): (r: seq<GroupEntry>)
    ensures e in r
    ensures |r| == |groups| + (if e.id in GroupIds(groups) then 0 else 1)
    ensures forall k :: 0 <= k < |groups| && groups[k].id != e.id ==> r[k] == groups[k]
    ensures forall k :: 0 <= k < |groups| ==> r[k].id == groups[k].id
    ensures DistinctIds(groups) ==> DistinctIds(r)
  {
    var k := GroupIndex(groups, e.id);
    if k >= 0 then
      assert groups[k := e][k] == e;
      groups[k := e]
    else
      assert forall j :: 0 <= j < |groups| ==> groups[j].id != e.id by {
        forall j | 0 <= j < |groups| ensures groups[j].id != e.id {
          assert groups[j] in groups;
        }
      }
      groups + [e]
  }

  lemma GroupsWithoutCompose(groups: seq<GroupEntry>, ids: set<string>, id: string)
    ensures GroupsWithout(GroupsWithout(groups, ids), {id}) == GroupsWithout(groups, ids + {id})
  {
    forall k | 0 <= k < |groups|
      ensures GroupsWithout(GroupsWithout(groups, ids), {id})[k] == GroupsWithout(groups, ids + {id})[k]
    {
      assert groups[k].group.pointIds - ids - {id} == groups[k].group.pointIds - (ids + {id});
    }
  }

  /** Removing nothing from the groups changes nothing. */
  lemma GroupsWithoutNothing(groups: seq<GroupEntry>)
    ensures GroupsWithout(groups, {}) == groups
  {
    forall k | 0 <= k < |groups| ensures GroupsWithout(groups, {})[k] == groups[k] {
      assert groups[k].group.pointIds - {} == groups[k].group.pointIds;
    }
  }

  // ---------------------------------------------------------------------
  // Editing a point

  /** Index of the first point with this id, or -1. */
  function PointIndex(points: seq<RefPoint>, id: string): (i: int)
    ensures -1 <= i < |points|
    ensures i >= 0 ==> points[i].id == id && forall k :: 0 <= k < i ==> points[k].id != id
    ensures i == -1 ==> forall k :: 0 <= k < |points| ==> points[k].id != id
  {
    if |points| == 0 then -1
    else if points[0].id == id then 0
    else
      var i := PointIndex(points[1..], id);
      if i == -1 then -1 else i + 1
  }

  /** Index of the group with this id, or -1. */
  function GroupIndex(groups: seq<GroupEntry>, id: string): (i: int)
    ensures -1 <= i < |groups|
    ensures i >= 0 ==> groups[i].id == id
    ensures i == -1 <==> id !in GroupIds(groups)
  {
    if |groups| == 0 then -1
    else if groups[0].id == id then 0
    else
      var i := GroupIndex(groups[1..], id);
      assert GroupIds(groups) == {groups[0].id} + GroupIds(groups[1..]);
      if i == -1 then -1 else i + 1
  }

  /** The chain-parent choice as read from its drop-down: the literal "None" means no parent. */
  function ParentChoice(choice: string): (r: Option<string>)
    ensures r.None? <==> choice == "None"
    ensures r.Some? ==> r.value == choice
  {
    if choice == "None" then None else Some(choice)
  }

  /** The group the edit assigns the point to, or -1 when the choice names none. */
  function ChosenGroup(groups: seq<GroupEntry>, groupChoice: Option<string>): (i: int)
    ensures -1 <= i < |groups|
    ensures i >= 0 <==> Truthy(groupChoice) && groupChoice.value != "None" && groupChoice.value in GroupIds(groups)
    ensures i >= 0 ==> groups[i].id == groupChoice.value
  {
    if Truthy(groupChoice) && groupChoice.value != "None" then GroupIndex(groups, groupChoice.value) else -1
  }

  /** Group memberships after an edit: the old id leaves every group and the new id joins the chosen one. */
  function Reassigned(groups: seq<GroupEntry>, originalId: string, newId: string, chosen: int): (r: seq<GroupEntry>)
    ensures |r| == |groups|
    ensures forall k :: 0 <= k < |groups| ==>
      r[k].id == groups[k].id && r[k].group.name == groups[k].group.name && r[k].group.action == groups[k].group.action
      && r[k].group.pointIds == (groups[k].group.pointIds - {originalId}) + (if k == chosen then {newId} else {})
  {
    seq(|groups|, k requires 0 <= k < |groups| =>
      groups[k].(group := groups[k].group.(pointIds :=
        (groups[k].group.pointIds - {originalId}) + (if k == chosen then {newId} else {}))))
  }

  /**
   * Unless the point is renamed onto an id that some group already lists,
   * an edit leaves it in at most one group.
   */
  lemma AtMostOneGroup(groups: seq<GroupEntry>, originalId: string, newId: string, chosen: int)
    requires newId == originalId || forall k :: 0 <= k < |groups| ==> newId !in groups[k].group.pointIds
    ensures var r := Reassigned(groups, originalId, newId, chosen);
            forall j, k :: 0 <= j < |r| && 0 <= k < |r| && newId in r[j].group.pointIds && newId in r[k].group.pointIds ==> j == k
  {
  }

  // ---------------------------------------------------------------------
  // The mutable state behind points, groups and actions

  class ReferenceState
  {
    var referencePoints: seq<RefPoint>
    var groups: seq<GroupEntry>
    var pointHitHistory: map<string, real>
    var groupLastTriggered: map<string, real>
    var stockpiledActions: seq<Action>
    var stockpileModeEnabled: bool
    var totalActionsCompleted: nat
    var sessionActionsCompleted: nat
    var actionCountFilePath: Option<string>
    var files: FileSystem

    predicate Valid()
      reads this
    {
      DistinctIds(groups)
    }

    constructor(files: FileSystem)
      ensures Valid()
      ensures referencePoints == [] && groups == [] && pointHitHistory == map[] && groupLastTriggered == map[]
      ensures stockpiledActions == [] && !stockpileModeEnabled && totalActionsCompleted == 0 && sessionActionsCompleted == 0
      ensures actionCountFilePath == None && this.files == files
    {
      referencePoints := [];
      groups := [];
      pointHitHistory := map[];
      groupLastTriggered := map[];
      stockpiledActions := [];
      stockpileModeEnabled := false;
      totalActionsCompleted := 0;
      sessionActionsCompleted := 0;
      actionCountFilePath := None;
      this.files := files;
    }

    /** A new point at `position`, not hit, active and unchained; `id` stands for the random hex id. */
    method AddReferencePoint(id: string, position: Vec3)
      modifies this
      ensures referencePoints == old(referencePoints) + [RefPoint(id, position, false, true, None)]
      ensures groups == old(groups) && pointHitHistory == old(pointHitHistory)
      ensures groupLastTriggered == old(groupLastTriggered) && stockpiledActions == old(stockpiledActions)
      ensures stockpileModeEnabled == old(stockpileModeEnabled) && files == old(files)
      ensures totalActionsCompleted == old(totalActionsCompleted) && sessionActionsCompleted == old(sessionActionsCompleted)
      ensures actionCountFilePath == old(actionCountFilePath)
    {
      referencePoints := referencePoints + [RefPoint(id, position, false, true, None)];
    }

    /**
     * Deleting the selected points one after another: each goes from the
     * point list, from every chain parent, from the hit history and from
     * every group.
     */
    method DeleteReferencePoints(selected: seq<string>)
      requires Valid()
      modifies this
      ensures Valid()
      ensures referencePoints == PointsWithout(old(referencePoints), Ids(selected))
      ensures pointHitHistory == old(pointHitHistory) - Ids(selected)
      ensures groups == GroupsWithout(old(groups), Ids(selected))
      ensures groupLastTriggered == old(groupLastTriggered) && stockpiledActions == old(stockpiledActions)
      ensures stockpileModeEnabled == old(stockpileModeEnabled) && files == old(files)
      ensures totalActionsCompleted == old(totalActionsCompleted) && sessionActionsCompleted == old(sessionActionsCompleted)
      ensures actionCountFilePath == old(actionCountFilePath)
    {
      referencePoints, pointHitHistory, groups := DeleteAll(referencePoints, pointHitHistory, groups, selected);
    }

    /**
     * A group named by the first free candidate name, with no points and a
     * blank key-press action, stored under `groupId` (the random id).
     */
    method CreateGroup(groupId: string) returns (name: string)
      requires Valid()
      modifies this
      ensures Valid()
      ensures name !in GroupNames(old(groups))
      ensures exists k: nat :: k >= 1 && name == CandidateName(k) && forall j: nat :: 1 <= j < k ==> CandidateName(j) in GroupNames(old(groups))
      ensures groups == PutGroup(old(groups), GroupEntry(groupId, Group(name, {}, Action("Key Press", ""))))
      ensures referencePoints == old(referencePoints) && pointHitHistory == old(pointHitHistory)
      ensures groupLastTriggered == old(groupLastTriggered) && stockpiledActions == old(stockpiledActions)
      ensures stockpileModeEnabled == old(stockpileModeEnabled) && files == old(files)
      ensures totalActionsCompleted == old(totalActionsCompleted) && sessionActionsCompleted == old(sessionActionsCompleted)
      ensures actionCountFilePath == old(actionCountFilePath)
    {
      name := FirstFreeName(GroupNames(groups));
      groups := PutGroup(groups, GroupEntry(groupId, Group(name, {}, Action("Key Press", ""))));
    }

    /**
     * Saving the point editor: `parsed` is None when a coordinate did not
     * parse (then nothing changes); otherwise the old id leaves every
     * group, the new id joins the chosen group if it exists, and the first
     * point with the old id takes the new id, position and chain parent.
     * Points chained to the old id keep naming it (see `RenameStrandsChildren`).
     */
    method UpdateSelectedPoint(originalId: string, newId: string, parsed: Option<Vec3>, chainChoice: string, groupChoice: Option<string>)
      requires Valid()
      modifies this`groups, this`referencePoints
      ensures Valid()
      ensures parsed.None? ==> referencePoints == old(referencePoints) && groups == old(groups)
      ensures parsed.Some? ==> groups == Reassigned(old(groups), originalId, newId, ChosenGroup(old(groups), groupChoice))
      ensures parsed.Some? ==> referencePoints == EditedPoints(old(referencePoints), originalId, newId, parsed.value, ParentChoice(chainChoice))
    {
      if parsed.None? {
        return;
      }
      var parent := if chainChoice == "None" then None else Some(chainChoice);
      var chosen := ChosenGroup(groups, groupChoice);
      groups := Reassigned(groups, originalId, newId, chosen);
      var i := PointIndex(referencePoints, originalId);
      if i >= 0 {
        referencePoints := referencePoints[i := referencePoints[i].(id := newId, position := parsed.value, chainParent := parent)];
      }
    }

    /**
     * The point editor as evidently intended: as `UpdateSelectedPoint`,
     * and the points chained to the old id are re-pointed at the new one,
     * so an edit never leaves a chain parent that no point carries.
     */
    method UpdateSelectedPointRelinked(originalId: string, newId: string, parsed: Option<Vec3>, chainChoice: string, groupChoice: Option<string>)
      requires Valid()
      modifies this`groups, this`referencePoints
      ensures Valid()
      ensures parsed.None? ==> referencePoints == old(referencePoints) && groups == old(groups)
      ensures parsed.Some? ==> groups == Reassigned(old(groups), originalId, newId, ChosenGroup(old(groups), groupChoice))
      ensures parsed.Some? ==> referencePoints == EditedAndRelinked(old(referencePoints), originalId, newId, parsed.value, ParentChoice(chainChoice))
      ensures parsed.Some? && ParentsResolve(old(referencePoints))
              && (!Truthy(ParentChoice(chainChoice)) || ParentChoice(chainChoice).value in WorldIds(old(referencePoints))) ==>
                ParentsResolve(referencePoints)
    {
      if parsed.None? {
        return;
      }
      ghost var before := referencePoints;
      var parent := if chainChoice == "None" then None else Some(chainChoice);
      var chosen := ChosenGroup(groups, groupChoice);
      groups := Reassigned(groups, originalId, newId, chosen);
      var i := PointIndex(referencePoints, originalId);
      if i >= 0 {
        referencePoints := referencePoints[i := referencePoints[i].(id := newId, position := parsed.value, chainParent := parent)];
        referencePoints := Relinked(referencePoints, originalId, newId);
      }
      if ParentsResolve(before) && (!Truthy(ParentChoice(chainChoice)) || ParentChoice(chainChoice).value in WorldIds(before)) {
        EditKeepsParentsResolved(before, originalId, newId, parsed.value, ParentChoice(chainChoice));
      }
    }

    /**
     * One completed group action: both counters go up, the total is
     * written to the count file, and the action is either stockpiled or
     * handed back in `executed` for the executor.
     */
    method HandleActionCompletion(g: Group) returns (executed: Option<Action>)
      modifies this`totalActionsCompleted, this`sessionActionsCompleted, this`files, this`stockpiledActions
      ensures totalActionsCompleted == old(totalActionsCompleted) + 1
      ensures sessionActionsCompleted == old(sessionActionsCompleted) + 1
      ensures files == WriteRepsToFile(old(files), actionCountFilePath, totalActionsCompleted, false)
      ensures stockpileModeEnabled ==> stockpiledActions == old(stockpiledActions) + [g.action] && executed == None
      ensures !stockpileModeEnabled ==> stockpiledActions == old(stockpiledActions) && executed == Some(g.action)
    {
      totalActionsCompleted := totalActionsCompleted + 1;
      sessionActionsCompleted := sessionActionsCompleted + 1;
      files := WriteRepsToFile(files, actionCountFilePath, totalActionsCompleted, false);
      if stockpileModeEnabled {
        stockpiledActions := stockpiledActions + [g.action];
        executed := None;
      } else {
        executed := Some(g.action);
      }
    }

    /** Releasing one stockpiled action: the oldest one, if any. */
    method ExecuteStockpiled() returns (executed: Option<Action>)
      modifies this`stockpiledActions
      ensures old(stockpiledActions) == [] ==> executed == None && stockpiledActions == []
      ensures old(stockpiledActions) != [] ==> executed == Some(old(stockpiledActions)[0]) && stockpiledActions == old(stockpiledActions)[1..]
    {
      if |stockpiledActions| > 0 {
        executed := Some(stockpiledActions[0]);
        stockpiledActions := stockpiledActions[1..];
      } else {
        executed := None;
      }
    }

    /** The groups queued by hit detection, completed in queue order. */
    method ProcessTriggered(triggered: seq<Group>) returns (executed: seq<Action>)
      modifies this`totalActionsCompleted, this`sessionActionsCompleted, this`files, this`stockpiledActions
      ensures totalActionsCompleted == old(totalActionsCompleted) + |triggered|
      ensures sessionActionsCompleted == old(sessionActionsCompleted) + |triggered|
      ensures stockpileModeEnabled ==> stockpiledActions == old(stockpiledActions) + ActionsOf(triggered) && executed == []
      ensures !stockpileModeEnabled ==> stockpiledActions == old(stockpiledActions) && executed == ActionsOf(triggered)
      ensures |triggered| > 0 ==> files == WriteRepsToFile(old(files), actionCountFilePath, totalActionsCompleted, false)
      ensures |triggered| == 0 ==> files == old(files)
    {
      executed := [];
      for i := 0 to |triggered|
        invariant CompletedUpTo(triggered, i, executed, old(totalActionsCompleted), old(sessionActionsCompleted),
                                old(stockpiledActions), old(files))
      {
        executed := CompleteNext(triggered, i, executed, old(totalActionsCompleted), old(sessionActionsCompleted),
                                 old(stockpiledActions), old(files));
      }
      assert triggered[..|triggered|] == triggered;
    }

    /** The counters, the stockpile and the files once the first `i` triggered groups have been completed. */
    ghost predicate CompletedUpTo(triggered: seq<Group>, i: nat, executed: seq<Action>,
                                  total0: nat, session0: nat, stockpiled0: seq<Action>, files0: FileSystem)
      reads this
    {
      i <= |triggered|
      && totalActionsCompleted == total0 + i
      && sessionActionsCompleted == session0 + i
      && (stockpileModeEnabled ==> stockpiledActions == stockpiled0 + ActionsOf(triggered[..i]) && executed == [])
      && (!stockpileModeEnabled ==> stockpiledActions == stockpiled0 && executed == ActionsOf(triggered[..i]))
      && (i > 0 ==> files == WriteRepsToFile(files0, actionCountFilePath, totalActionsCompleted, false))
      && (i == 0 ==> files == files0)
    }

    /** One iteration of the completion loop. */
    method CompleteNext(triggered: seq<Group>, i: nat, executed: seq<Action>,
                        ghost total0: nat, ghost session0: nat, ghost stockpiled0: seq<Action>, ghost files0: FileSystem)
      returns (executed': seq<Action>)
      requires i < |triggered| && CompletedUpTo(triggered, i, executed, total0, session0, stockpiled0, files0)
      modifies this`totalActionsCompleted, this`sessionActionsCompleted, this`files, this`stockpiledActions
      ensures CompletedUpTo(triggered, i + 1, executed', total0, session0, stockpiled0, files0)
    {
      ActionsOfSnoc(triggered, i);
      ghost var filesBefore := files;
      var e := HandleActionCompletion(triggered[i]);
      OverwriteCount(files0, filesBefore, actionCountFilePath, totalActionsCompleted - 1, totalActionsCompleted, i > 0);
      executed' := if e.Some? then executed + [e.value] else executed;
    }

    /**
     * The hit-detection pass of the GUI loop: the point flags, the hit
     * history and the trigger stamps become those of `HitTick`, and the
     * groups that fired are returned in dictionary order.
     */
    method DetectHits(tip: Vec3, now: real, grace: real, tolerance: real, interval: real)
      returns (triggered: seq<Group>, ghost out: HitOutcome)
      requires Valid()
      modifies this`referencePoints, this`pointHitHistory, this`groupLastTriggered
      ensures Valid()
      ensures out == HitTick(old(referencePoints), groups, old(pointHitHistory), old(groupLastTriggered), tip, now, grace, tolerance, interval)
      ensures referencePoints == out.points && pointHitHistory == out.history
      ensures groupLastTriggered == out.lastTriggered && triggered == out.triggered
    {
      var pass := HitPass(referencePoints, groups, pointHitHistory, groupLastTriggered, tip, now, grace, tolerance, interval);
      out := pass;
      referencePoints, pointHitHistory, groupLastTriggered := pass.points, pass.history, pass.lastTriggered;
      triggered := pass.triggered;
    }
  }

  /** The names `f(1)`, ..., `f(n)`. */
  function Tried(f: nat -> string, n: nat): set<string>
  {
    if n == 0 then {} else Tried(f, n - 1) + {f(n)}
  }

  lemma {:induction false} TriedHolds(f: nat -> string, n: nat, j: nat)
    requires 1 <= j <= n
    ensures f(j) in Tried(f, n)
  {
    if j < n {
      TriedHolds(f, n - 1, j);
    }
  }

  lemma {:induction false} FromTried(f: nat -> string, n: nat, name: string)
    requires name in Tried(f, n)
    ensures exists j: nat :: 1 <= j <= n && name == f(j)
  {
    if name != f(n) {
      FromTried(f, n - 1, name);
    }
  }

  lemma NextCandidateIsNew(n: nat)
    ensures CandidateName(n + 1) !in Tried(CandidateName, n)
  {
    if CandidateName(n + 1) in Tried(CandidateName, n) {
      FromTried(CandidateName, n, CandidateName(n + 1));
      var j: nat :| 1 <= j <= n && CandidateName(n + 1) == CandidateName(j);
      CandidateNameInjective(j, n + 1);
    }
  }

  /** Trying the next taken candidate brings the search closer to the end. */
  lemma TryNext(existing: set<string>, tried: set<string>, n: nat)
    requires tried == Tried(CandidateName, n) && tried <= existing && CandidateName(n + 1) in existing
    ensures tried + {CandidateName(n + 1)} == Tried(CandidateName, n + 1) && tried + {CandidateName(n + 1)} <= existing
    ensures |existing - (tried + {CandidateName(n + 1)})| < |existing - tried|
  {
    var name := CandidateName(n + 1);
    NextCandidateIsNew(n);
    assert existing - (tried + {name}) == (existing - tried) - {name};
  }

  /** When the first `n` candidates are taken and the next is not, the next is the first free one. */
  lemma FirstFree(existing: set<string>, n: nat)
    requires Tried(CandidateName, n) <= existing
    ensures exists k: nat :: k >= 1 && CandidateName(n + 1) == CandidateName(k) && forall j: nat :: 1 <= j < k ==> CandidateName(j) in existing
  {
    forall j: nat | 1 <= j < n + 1 ensures CandidateName(j) in existing {
      TriedHolds(CandidateName, n, j);
    }
  }

  /** The first candidate group name not in `existing`. */
  method FirstFreeName(existing: set<string>) returns (name: string)
    ensures name !in existing
    ensures exists k: nat :: k >= 1 && name == CandidateName(k) && forall j: nat :: 1 <= j < k ==> CandidateName(j) in existing
  {
    name := CandidateName(1);
    var counter: nat := 2;
    ghost var tried: set<string> := {};
    while name in existing
      invariant counter >= 2 && name == CandidateName(counter - 1)
      invariant tried == Tried(CandidateName, counter - 2) && tried <= existing
      decreases |existing - tried|
    {
      TryNext(existing, tried, counter - 2);
      tried := tried + {name};
      name := CandidateName(counter);
      counter := counter + 1;
    }
    FirstFree(existing, counter - 2);
  }

  /** One more selected id deleted: the state for the first `i + 1` ids. */
  lemma DeleteStep(points0: seq<RefPoint>, history0: map<string, real>, groups0: seq<GroupEntry>, selected: seq<string>, i: nat)
    requires i < |selected|
    ensures PointsWithout(PointsWithout(points0, Ids(selected[..i])), {selected[i]})
            == PointsWithout(points0, Ids(selected[..i + 1]))
    ensures GroupsWithout(GroupsWithout(groups0, Ids(selected[..i])), {selected[i]})
            == GroupsWithout(groups0, Ids(selected[..i + 1]))
    ensures selected[i] in history0 - Ids(selected[..i]) ==>
              (history0 - Ids(selected[..i])) - {selected[i]} == history0 - Ids(selected[..i + 1])
    ensures selected[i] !in history0 - Ids(selected[..i]) ==>
              history0 - Ids(selected[..i]) == history0 - Ids(selected[..i + 1])
  {
    var before := Ids(selected[..i]);
    assert Ids(selected[..i + 1]) == before + {selected[i]} by {
      assert selected[..i + 1] == selected[..i] + [selected[i]];
    }
    PointsWithoutCompose(points0, before, selected[i]);
    GroupsWithoutCompose(groups0, before, selected[i]);
  }

  /** The deletion loop over the selected ids. */
  method DeleteAll(points0: seq<RefPoint>, history0: map<string, real>, groups0: seq<GroupEntry>, selected: seq<string>)
    returns (points: seq<RefPoint>, history: map<string, real>, groups: seq<GroupEntry>)
    ensures points == PointsWithout(points0, Ids(selected))
    ensures history == history0 - Ids(selected)
    ensures groups == GroupsWithout(groups0, Ids(selected))
  {
    points := points0;
    history := history0;
    groups := groups0;
    assert Ids(selected[..0]) == {};
    NothingDeleted(points0);
    GroupsWithoutNothing(groups0);
    for i := 0 to |selected|
      invariant points == PointsWithout(points0, Ids(selected[..i]))
      invariant history == history0 - Ids(selected[..i])
      invariant groups == GroupsWithout(groups0, Ids(selected[..i]))
    {
      var itemId := selected[i];
      DeleteStep(points0, history0, groups0, selected, i);
      points := PointsWithout(points, {itemId});
      if itemId in history {
        history := history - {itemId};
      }
      groups := GroupsWithout(groups, {itemId});
    }
    assert selected[..|selected|] == selected;
  }

  /** Writing the count file twice leaves only the second write. */
  lemma OverwriteCount(files0: FileSystem, files1: FileSystem, path: Option<string>, n1: nat, n2: nat, written: bool)
    requires written ==> files1 == WriteRepsToFile(files0, path, n1, false)
    requires !written ==> files1 == files0
    ensures WriteRepsToFile(files1, path, n2, false) == WriteRepsToFile(files0, path, n2, false)
  {
  }

  function ActionsOf(gs: seq<Group>): (r: seq<Action>)
    ensures |r| == |gs| && forall k :: 0 <= k < |gs| ==> r[k] == gs[k].action
  {
    if |gs| == 0 then [] else ActionsOf(gs[..|gs| - 1]) + [gs[|gs| - 1].action]
  }

  lemma ActionsOfSnoc(gs: seq<Group>, i: nat)
    requires i < |gs|
    ensures ActionsOf(gs[..i + 1]) == ActionsOf(gs[..i]) + [gs[i].action]
  {
    assert gs[..i + 1][..i] == gs[..i];
  }

  /** Nothing to delete leaves the points as they are. */
  lemma {:induction false} NothingDeleted(points: seq<RefPoint>)
    ensures PointsWithout(points, {}) == points
    decreases |points|
  {
    if |points| > 0 {
      NothingDeleted(points[1..]);
      assert points == [points[0]] + points[1..];
    }
  }

  /** The point list after the editor saves `originalId` under `newId`. */
  function EditedPoints(points: seq<RefPoint>, originalId: string, newId: string, position: Vec3, parent: Option<string>): (r: seq<RefPoint>)
    ensures |r| == |points|
    ensures PointIndex(points, originalId) == -1 ==> r == points
    ensures forall k :: 0 <= k < |points| && k != PointIndex(points, originalId) ==> r[k] == points[k]
    ensures PointIndex(points, originalId) >= 0 ==>
      var i := PointIndex(points, originalId);
      r[i].id == newId && r[i].position == position && r[i].chainParent == parent
      && r[i].hit == points[i].hit && r[i].isActive == points[i].isActive
  {
    var i := PointIndex(points, originalId);
    if i >= 0 then points[i := points[i].(id := newId, position := position, chainParent := parent)] else points
  }

  /** Every non-empty chain parent names a point in the list. */
  predicate ParentsResolve(points: seq<RefPoint>)
  {
    forall p :: p in points && Truthy(p.chainParent) ==> p.chainParent.value in WorldIds(points)
  }

  /**
   * The edit as written renames the point but leaves its children naming
   * the old id, which no point carries any more.
   */
  lemma RenameStrandsChildren(tip: Vec3)
    ensures var before := [RefPoint("a", tip, false, true, None), RefPoint("b", tip, false, true, Some("a"))];
            var after := EditedPoints(before, "a", "c", tip, None);
            ParentsResolve(before) && !ParentsResolve(after) && after[1].chainParent == Some("a")
  {
    var before := [RefPoint("a", tip, false, true, None), RefPoint("b", tip, false, true, Some("a"))];
    assert before[0] in before;
    assert PointIndex(before, "a") == 0;
    var after := EditedPoints(before, "a", "c", tip, None);
    assert after == [RefPoint("c", tip, false, true, None), RefPoint("b", tip, false, true, Some("a"))];
    assert after[1] in after;
    assert "a" !in WorldIds(after);
  }

  /** Children of a renamed point follow it to the new id. */
  function Relinked(points: seq<RefPoint>, originalId: string, newId: string): (r: seq<RefPoint>)
    ensures |r| == |points|
    ensures forall k :: 0 <= k < |points| ==>
      r[k].id == points[k].id && r[k].position == points[k].position
      && r[k].chainParent == (if points[k].chainParent == Some(originalId) then Some(newId) else points[k].chainParent)
  {
    seq(|points|, k requires 0 <= k < |points| =>
      if points[k].chainParent == Some(originalId) then points[k].(chainParent := Some(newId)) else points[k])
  }

  /** The edit with the children re-pointed at the new id. */
  function EditedAndRelinked(points: seq<RefPoint>, originalId: string, newId: string, position: Vec3, parent: Option<string>): seq<RefPoint>
  {
    if PointIndex(points, originalId) == -1 then points
    else Relinked(EditedPoints(points, originalId, newId, position, parent), originalId, newId)
  }

  /**
   * With the children re-pointed, an edit whose new chain parent is "None"
   * or an existing point keeps every chain parent resolvable.
   */
  lemma EditKeepsParentsResolved(points: seq<RefPoint>, originalId: string, newId: string, position: Vec3, parent: Option<string>)
    requires ParentsResolve(points)
    requires !Truthy(parent) || parent.value in WorldIds(points)
    ensures ParentsResolve(EditedAndRelinked(points, originalId, newId, position, parent))
  {
    var i := PointIndex(points, originalId);
    if i >= 0 {
      var e := EditedPoints(points, originalId, newId, position, parent);
      var r := Relinked(e, originalId, newId);
      forall q | q in r && Truthy(q.chainParent) ensures q.chainParent.value in WorldIds(r)
      {
        var k :| 0 <= k < |r| && r[k] == q;
        var v := q.chainParent.value;
        if v == newId {
          assert r[i].id == newId && r[i] in r;
        } else {
          // the parent id is not the edited point's old id, so its holder is another, unchanged point
          assert e[k].chainParent == q.chainParent && v != originalId;
          var holder: RefPoint;
          if k == i {
            assert parent == Some(v);
            holder :| holder in points && holder.id == v;
          } else {
            assert points[k] in points;
            holder :| holder in points && holder.id == v;
          }
          var h :| 0 <= h < |points| && points[h] == holder;
          assert h != i;
          assert r[h].id == v && r[h] in r;
        }
      }
    }
  }

  /** The statements of one hit-detection pass, on the values of the fields. */
  method HitPass(points0: seq<RefPoint>, groups: seq<GroupEntry>, history0: map<string, real>,
                 lastTriggered0: map<string, real>, tip: Vec3, now: real, grace: real, tolerance: real, interval: real)
    returns (out: HitOutcome)
    requires DistinctIds(groups)
    ensures out == HitTick(points0, groups, history0, lastTriggered0, tip, now, grace, tolerance, interval)
  {
    var history := Expire(history0, now, grace);
    var points, newlyHit;
    points, history, newlyHit := RegisterHits(points0, history, tip, tolerance, now);
    ghost var fired;
    var lastTriggered;
    var toClear;
    var triggered;
    triggered, fired, lastTriggered, toClear := CheckGroups(groups, points, newlyHit, history, lastTriggered0, now, grace, interval);
    out := HitOutcome(points, history - toClear, lastTriggered, triggered);
  }

  /** The registration loop over the points, flag by flag. */
  method RegisterHits(points0: seq<RefPoint>, history0: map<string, real>, tip: Vec3, tolerance: real, now: real)
    returns (points: seq<RefPoint>, history: map<string, real>, newlyHit: set<string>)
    ensures Registered(points, history, newlyHit) == Register(points0, history0, tip, tolerance, now)
  {
    points := [];
    history := history0;
    newlyHit := {};
    for i := 0 to |points0|
      invariant Registered(points, history, newlyHit) == Register(points0[..i], history0, tip, tolerance, now)
    {
      RegisterSnoc(points0, i, history0, tip, tolerance, now);
      ghost var prev := Registered(points, history, newlyHit);
      var p := points0[i];
      var parentId := p.chainParent;
      var active := !Truthy(parentId) || parentId.value in history;
      var within := DistanceBelow(tip.Sub(p.position).NormSq(), tolerance);
      p := p.(isActive := active, hit := active && within);
      assert p == Marked(points0[i], prev.history, tip, tolerance);
      if p.hit && p.id !in history {
        newlyHit := newlyHit + {p.id};
        history := history[p.id := now];
      }
      points := points + [p];
    }
    assert points0[..|points0|] == points0;
  }

  /**
   * The group check: skipped when nothing was newly hit, otherwise each
   * group in order is tested by the span of its members' hit times and
   * the cooldown, and fired groups are stamped and their members queued
   * for clearing.
   */
  method CheckGroups(groups: seq<GroupEntry>, points: seq<RefPoint>, newlyHit: set<string>, history: map<string, real>,
                     lastTriggered0: map<string, real>, now: real, grace: real, interval: real)
    returns (triggered: seq<Group>, ghost fired: seq<GroupEntry>, lastTriggered: map<string, real>, toClear: set<string>)
    requires DistinctIds(groups)
    ensures fired == (if newlyHit == {} then [] else Fired(groups, WorldIds(points), newlyHit, history, lastTriggered0, now, grace, interval))
    ensures triggered == GroupsOf(fired)
    ensures lastTriggered == Stamped(lastTriggered0, fired, now)
    ensures toClear == ClearedBy(fired, WorldIds(points))
  {
    triggered := [];
    fired := [];
    lastTriggered := lastTriggered0;
    toClear := {};
    assert Stamped(lastTriggered0, [], now) == lastTriggered0;
    if newlyHit == {} {
      return;
    }
    var worldIds := set p | p in points :: p.id;
    for j := 0 to |groups|
      invariant fired == Fired(groups[..j], worldIds, newlyHit, history, lastTriggered0, now, grace, interval)
      invariant triggered == GroupsOf(fired)
      invariant lastTriggered == Stamped(lastTriggered0, fired, now)
      invariant toClear == ClearedBy(fired, worldIds)
    {
      var g := groups[j];
      CheckStep(groups, j, worldIds, newlyHit, history, lastTriggered0, now, grace, interval, fired);
      var fires, valid := TestGroup(g, worldIds, newlyHit, history, lastTriggered, now, grace, interval);
      assert fires == GroupFires(g, worldIds, newlyHit, history, lastTriggered0, now, grace, interval);
      if fires {
        triggered := triggered + [g.group];
        fired := fired + [g];
        lastTriggered := lastTriggered[g.id := now];
        toClear := toClear + valid;
      }
    }
    assert groups[..|groups|] == groups;
  }

  /** What one more round of the group loop does to the fired list, the stamps and the ids to clear. */
  lemma CheckStep(groups: seq<GroupEntry>, j: nat, worldIds: set<string>, newlyHit: set<string>, history: map<string, real>,
                  lastTriggered: map<string, real>, now: real, grace: real, interval: real, fired: seq<GroupEntry>)
    requires DistinctIds(groups) && j < |groups|
    requires fired == Fired(groups[..j], worldIds, newlyHit, history, lastTriggered, now, grace, interval)
    ensures var g := groups[j];
            LastTriggered(Stamped(lastTriggered, fired, now), g.id) == LastTriggered(lastTriggered, g.id)
            && Fired(groups[..j + 1], worldIds, newlyHit, history, lastTriggered, now, grace, interval)
               == (if GroupFires(g, worldIds, newlyHit, history, lastTriggered, now, grace, interval) then fired + [g] else fired)
            && Stamped(lastTriggered, fired + [g], now) == Stamped(lastTriggered, fired, now)[g.id := now]
            && ClearedBy(fired + [g], worldIds) == ClearedBy(fired, worldIds) + ValidMembers(g.group, worldIds)
            && GroupsOf(fired + [g]) == GroupsOf(fired) + [g.group]
  {
    var g := groups[j];
    FiredSnoc(groups, j, worldIds, newlyHit, history, lastTriggered, now, grace, interval);
    FiredMembers(groups[..j], worldIds, newlyHit, history, lastTriggered, now, grace, interval);
    assert g.id !in FiredIds(fired) by {
      forall f | f in fired ensures f.id != g.id {
        var k :| 0 <= k < j && groups[..j][k] == f;
      }
    }
    StampStep(lastTriggered, fired, g, now);
  }

  /** The fired list of one more group. */
  lemma FiredSnoc(groups: seq<GroupEntry>, j: nat, worldIds: set<string>, newlyHit: set<string>, history: map<string, real>,
                  lastTriggered: map<string, real>, now: real, grace: real, interval: real)
    requires j < |groups|
    ensures Fired(groups[..j + 1], worldIds, newlyHit, history, lastTriggered, now, grace, interval)
            == (if GroupFires(groups[j], worldIds, newlyHit, history, lastTriggered, now, grace, interval)
                then Fired(groups[..j], worldIds, newlyHit, history, lastTriggered, now, grace, interval) + [groups[j]]
                else Fired(groups[..j], worldIds, newlyHit, history, lastTriggered, now, grace, interval))
  {
    assert groups[..j + 1][..j] == groups[..j];
  }

  /** Stamping one more group that had not fired yet; its previous stamp is still the original one. */
  lemma StampStep(lastTriggered: map<string, real>, fired: seq<GroupEntry>, g: GroupEntry, now: real)
    requires g.id !in FiredIds(fired)
    ensures Stamped(lastTriggered, fired + [g], now) == Stamped(lastTriggered, fired, now)[g.id := now]
    ensures LastTriggered(Stamped(lastTriggered, fired, now), g.id) == LastTriggered(lastTriggered, g.id)
  {
    assert FiredIds(fired + [g]) == FiredIds(fired) + {g.id};
  }

  /** The test the loop applies to one group: members, new hit, span of hit times, cooldown. */
  method TestGroup(g: GroupEntry, worldIds: set<string>, newlyHit: set<string>, history: map<string, real>,
                   lastTriggered: map<string, real>, now: real, grace: real, interval: real) returns (fires: bool, valid: set<string>)
    ensures valid == ValidMembers(g.group, worldIds)
    ensures fires == GroupFires(g, worldIds, newlyHit, history, lastTriggered, now, grace, interval)
  {
    valid := g.group.pointIds * worldIds;
    fires := false;
    if valid == {} || newlyHit * valid == {} {
      return;
    }
    if valid <= history.Keys {
      var lo, hi := HitSpan(history, valid);
      if hi - lo <= grace {
        assert WithinGrace(history, valid, grace);
        var last := if g.id in lastTriggered then lastTriggered[g.id] else 0.0;
        fires := now - last > interval;
      } else {
        var a :| a in valid && history[a] == hi;
        var b :| b in valid && history[b] == lo;
        assert history[a] - history[b] > grace;
      }
    }
  }

  /** The earliest and latest hit times among `members` (`min(hit_times)`, `max(hit_times)`). */
  method HitSpan(history: map<string, real>, members: set<string>) returns (lo: real, hi: real)
    requires members != {} && members <= history.Keys
    ensures forall a :: a in members ==> lo <= history[a] <= hi
    ensures exists a :: a in members && history[a] == lo
    ensures exists a :: a in members && history[a] == hi
  {
    var first :| first in members;
    lo, hi := history[first], history[first];
    var rest := members - {first};
    while rest != {}
      invariant rest <= members && first in members - rest
      invariant forall a :: a in members - rest ==> lo <= history[a] <= hi
      invariant exists a :: a in members - rest && history[a] == lo
      invariant exists a :: a in members - rest && history[a] == hi
      decreases |rest|
    {
      var a :| a in rest;
      if history[a] < lo { lo := history[a]; }
      if history[a] > hi { hi := history[a]; }
      rest := rest - {a};
    }
  }
}
