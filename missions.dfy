/** The weekly-mission state machine of App.tsx: recording progress and
    claiming the reward. */
module MissionRules {
  import opened Common
  import opened Types

  /** Every mission's progress lies between zero and its target. */
  predicate WithinTargets(missions: seq<Mission>)
  {
    forall i :: 0 <= i < |missions| ==> 0 <= missions[i].current <= missions[i].target
  }

  predicate Advances(m: Mission, missionId: string)
  {
    m.id == missionId && m.current < m.target
  }

  /** The `map` over the missions in handleMissionProgress. */
  function Bump(missions: seq<Mission>, missionId: string): (r: seq<Mission>)
    ensures |r| == |missions|
    ensures forall i :: 0 <= i < |r| ==>
      r[i] == if Advances(missions[i], missionId)
              then missions[i].(current := missions[i].current + 1) else missions[i]
  {
    if missions == [] then []
    else
      var m := missions[0];
      [if Advances(m, missionId) then m.(current := m.current + 1) else m]
        + Bump(missions[1..], missionId)
  }

  /** handleMissionProgress: nothing happens once the week is completed;
      otherwise the missions with this id that are short of their target
      gain exactly one unit and nothing else changes. */
  function Progress(ms: MissionState, missionId: string): (r: MissionState)
    ensures ms.isWeekCompleted ==> r == ms
    ensures r.streak == ms.streak && r.isWeekCompleted == ms.isWeekCompleted
    ensures r.lastCompletedDate == ms.lastCompletedDate
    ensures |r.missions| == |ms.missions|
    ensures forall i :: 0 <= i < |r.missions| ==>
      r.missions[i].(current := ms.missions[i].current) == ms.missions[i]
    ensures forall i :: 0 <= i < |r.missions| ==>
      (r.missions[i].current == ms.missions[i].current + 1
        && !ms.isWeekCompleted && Advances(ms.missions[i], missionId))
      || r.missions[i] == ms.missions[i]
    ensures !ms.isWeekCompleted ==> forall i :: 0 <= i < |r.missions| && Advances(ms.missions[i], missionId) ==>
      r.missions[i].current == ms.missions[i].current + 1
    ensures WithinTargets(ms.missions) ==> WithinTargets(r.missions)
    ensures UniqueIds(ms.missions) ==> UniqueIds(r.missions)
  {
    if ms.isWeekCompleted then ms
    else
      var bumped := Bump(ms.missions, missionId);
      assert forall i :: 0 <= i < |bumped| ==> bumped[i].id == ms.missions[i].id;
      ms.(missions := bumped)
  }

  /** handleClaimReward: sets the completed flag, adds one week to the
      streak and stamps the claim instant; it does not check that the
      missions are complete. */
  function Claim(ms: MissionState, now: int): (r: MissionState)
    ensures r.isWeekCompleted && r.streak == ms.streak + 1
    ensures r.lastCompletedDate == Some(now) && r.missions == ms.missions
  {
    ms.(isWeekCompleted := true, streak := ms.streak + 1, lastCompletedDate := Some(now))
  }

  /** Progress after a claim has no effect. */
  lemma ProgressAfterClaim(ms: MissionState, now: int, missionId: string)
    ensures Progress(Claim(ms, now), missionId) == Claim(ms, now)
  {
  }

  function TotalCurrent(missions: seq<Mission>): int
  {
    if missions == [] then 0 else missions[0].current + TotalCurrent(missions[1..])
  }

  function TotalTargets(missions: seq<Mission>): int
  {
    if missions == [] then 0 else missions[0].target + TotalTargets(missions[1..])
  }

  /** How many missions a progress call for this id can advance. */
  function CountAdvancing(missions: seq<Mission>, missionId: string): nat
  {
    if missions == [] then 0
    else (if Advances(missions[0], missionId) then 1 else 0) + CountAdvancing(missions[1..], missionId)
  }

  predicate UniqueIds(missions: seq<Mission>)
  {
    forall i, j :: 0 <= i < j < |missions| ==> missions[i].id != missions[j].id
  }

  /** The total progress grows by the number of missions that can advance. */
  lemma {:induction false} BumpTotal(missions: seq<Mission>, missionId: string)
    ensures TotalCurrent(Bump(missions, missionId)) == TotalCurrent(missions) + CountAdvancing(missions, missionId)
    ensures TotalTargets(Bump(missions, missionId)) == TotalTargets(missions)
  {
    if missions != [] {
      BumpTotal(missions[1..], missionId);
      var r := Bump(missions, missionId);
      assert r[1..] == Bump(missions[1..], missionId);
    }
  }

  /** With distinct ids at most one mission can advance, and it is the one
      carrying the id. */
  lemma {:induction false} CountAdvancingUnique(missions: seq<Mission>, missionId: string)
    requires UniqueIds(missions)
    ensures CountAdvancing(missions, missionId) <= 1
    ensures CountAdvancing(missions, missionId) == 1 <==>
      exists i :: 0 <= i < |missions| && Advances(missions[i], missionId)
  {
    if missions != [] {
      var rest := missions[1..];
      assert UniqueIds(rest) by {
        forall i, j | 0 <= i < j < |rest| ensures rest[i].id != rest[j].id {
          assert rest[i] == missions[i + 1] && rest[j] == missions[j + 1];
        }
      }
      CountAdvancingUnique(rest, missionId);
      if Advances(missions[0], missionId) {
        forall i | 0 <= i < |rest| ensures !Advances(rest[i], missionId) {
          assert rest[i] == missions[i + 1];
        }
        CountAdvancingNone(rest, missionId);
      }
      if exists i :: 0 <= i < |missions| && Advances(missions[i], missionId) {
        var i :| 0 <= i < |missions| && Advances(missions[i], missionId);
        if i > 0 { assert Advances(rest[i - 1], missionId); }
      }
      if exists i :: 0 <= i < |rest| && Advances(rest[i], missionId) {
        var i :| 0 <= i < |rest| && Advances(rest[i], missionId);
        assert Advances(missions[i + 1], missionId);
      }
    }
  }

  lemma {:induction false} CountAdvancingNone(missions: seq<Mission>, missionId: string)
    requires forall i :: 0 <= i < |missions| ==> !Advances(missions[i], missionId)
    ensures CountAdvancing(missions, missionId) == 0
  {
    if missions != [] {
      assert forall i :: 0 <= i < |missions[1..]| ==> missions[1..][i] == missions[i + 1];
      CountAdvancingNone(missions[1..], missionId);
    }
  }

  /** With distinct mission ids, one progress call adds exactly one unit to
      the total when the named mission exists and is short of its target,
      and nothing otherwise. */
  lemma ProgressTotal(ms: MissionState, missionId: string)
    requires UniqueIds(ms.missions)
    ensures TotalCurrent(Progress(ms, missionId).missions) == TotalCurrent(ms.missions) +
      (if !ms.isWeekCompleted && exists i :: 0 <= i < |ms.missions| && Advances(ms.missions[i], missionId)
       then 1 else 0)
  {
    BumpTotal(ms.missions, missionId);
    CountAdvancingUnique(ms.missions, missionId);
  }
}

/** The derived views of components/MissionControl.tsx. */
module MissionControl {
  import opened Common
  import opened Types
  import opened MissionRules

  /** `missions.every(m => m.current >= m.target)`. */
  predicate AllCompleted(missions: seq<Mission>)
  {
    missions == [] || (missions[0].current >= missions[0].target && AllCompleted(missions[1..]))
  }

  /** All missions are complete exactly when each has reached its target;
      in particular an empty list counts as complete. */
  lemma {:induction false} AllCompletedIff(missions: seq<Mission>)
    ensures AllCompleted(missions) <==>
      forall i :: 0 <= i < |missions| ==> missions[i].current >= missions[i].target
  {
    if missions != [] {
      AllCompletedIff(missions[1..]);
      assert forall i :: 0 < i < |missions| ==> missions[i] == missions[1..][i - 1];
    }
  }

  /** handleMissionClick: forward the click only for an unfinished mission
      while the week is still open. */
  function MissionClick(ms: MissionState, m: Mission): (r: MissionState)
    ensures m.current >= m.target || ms.isWeekCompleted ==> r == ms
    ensures m.current < m.target && !ms.isWeekCompleted ==> r == Progress(ms, m.id)
  {
    if m.current < m.target && !ms.isWeekCompleted then Progress(ms, m.id) else ms
  }

  /** Clicking a listed, unfinished mission of an open week advances the
      total by exactly one (distinct ids); any other click changes nothing. */
  lemma MissionClickTotal(ms: MissionState, i: nat)
    requires i < |ms.missions| && UniqueIds(ms.missions)
    ensures var r := MissionClick(ms, ms.missions[i]);
      TotalCurrent(r.missions) == TotalCurrent(ms.missions) +
        (if ms.missions[i].current < ms.missions[i].target && !ms.isWeekCompleted then 1 else 0)
  {
    ProgressTotal(ms, ms.missions[i].id);
  }

  /** `Math.round(totalCurrent / totalTargets * 100)`, computed exactly;
      `None` stands for the NaN or Infinity a zero total produces. */
  function PercentComplete(missions: seq<Mission>): (r: Option<int>)
    ensures r.None? <==> TotalTargets(missions) == 0
    ensures r.Some? ==>
      var q := (100 * TotalCurrent(missions)) as real / TotalTargets(missions) as real;
      q - 0.5 < r.value as real <= q + 0.5
  {
    var t := TotalTargets(missions);
    if t == 0 then None
    else Some(((100 * TotalCurrent(missions)) as real / t as real + 0.5).Floor)
  }

  lemma {:induction false} TotalsBounded(missions: seq<Mission>)
    requires WithinTargets(missions)
    ensures 0 <= TotalCurrent(missions) <= TotalTargets(missions)
  {
    if missions != [] {
      assert WithinTargets(missions[1..]) by {
        forall i | 0 <= i < |missions[1..]| ensures 0 <= missions[1..][i].current <= missions[1..][i].target {
          assert missions[1..][i] == missions[i + 1];
        }
      }
      TotalsBounded(missions[1..]);
    }
  }

  /** With every mission within its target and a positive total target,
      the percentage lies in 0..100. */
  lemma PercentInRange(missions: seq<Mission>)
    requires WithinTargets(missions) && TotalTargets(missions) > 0
    ensures var p := PercentComplete(missions); p.Some? && 0 <= p.value <= 100
  {
    TotalsBounded(missions);
    var c := TotalCurrent(missions);
    var t := TotalTargets(missions);
    RatioBounds((100 * c) as real, t as real);
  }

  /** A quotient of a non-negative numerator by a positive denominator it
      does not exceed a hundredfold lies in 0..100. */
  lemma RatioBounds(n: real, d: real)
    requires d > 0.0 && 0.0 <= n <= 100.0 * d
    ensures 0.0 <= n / d <= 100.0
  {
    var q := n / d;
    assert q * d == n;
    assert (100.0 - q) * d == 100.0 * d - n;
  }

  /** The claim button is offered while the week is open and every mission
      is complete. */
  predicate ClaimOffered(ms: MissionState)
  {
    !ms.isWeekCompleted && AllCompleted(ms.missions)
  }

  /** Once claimed, the button is no longer offered. */
  lemma ClaimWithdrawsOffer(ms: MissionState, now: int)
    ensures !ClaimOffered(Claim(ms, now))
  {
  }

  datatype Position = Position(x: real, y: real)

  /** The width used by the snap: the measured width of the button, or 190
      when it is unknown or zero (`offsetWidth || 190`). */
  function ButtonWidth(measured: Option<int>): int
  {
    if measured.None? || measured.value == 0 then 190 else measured.value
  }

  /** The pointer-up snap: to the left edge when the button's centre is left
      of the middle, otherwise flush with the right edge; vertically clamped
      to at least 60 and, where there is room, at most 100 above the bottom. */
  function Snap(p: Position, measured: Option<int>, innerWidth: real, innerHeight: real): (r: Position)
    ensures var w := ButtonWidth(measured) as real;
      r.x == (if p.x + w / 2.0 < innerWidth / 2.0 then 0.0 else innerWidth - w)
    ensures r.y >= 60.0
    ensures innerHeight - 100.0 >= 60.0 ==> r.y <= innerHeight - 100.0
    ensures 60.0 <= p.y <= innerHeight - 100.0 ==> r.y == p.y
    ensures p.y < 60.0 || innerHeight - 100.0 < 60.0 ==> r.y == 60.0
    ensures p.y > innerHeight - 100.0 >= 60.0 ==> r.y == innerHeight - 100.0
  {
    var w := ButtonWidth(measured) as real;
    var snapX := if p.x + w / 2.0 < innerWidth / 2.0 then 0.0 else innerWidth - w;
    var maxY := innerHeight - 100.0;
    var lower := if p.y < maxY then p.y else maxY;
    Position(snapX, if 60.0 > lower then 60.0 else lower)
  }
}
