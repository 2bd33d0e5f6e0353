// BulletAgeSystem and DeathThroesSystem: each update takes `time` off every
// member's remaining time and asks for the entity's destruction once that time
// has run out. Both follow the same rule, stated once by `Expire`.

module Expiry {
  import opened Ecs
  import opened Components

  /** The destroy requests the first `n` members issue, in family order; members are given as
      (entity, remaining time). */
  function ExpireBefore(members: seq<(EntityId, real)>, n: nat, time: real): (requests: seq<Request>)
    requires n <= |members|
    ensures |requests| <= n
    ensures forall r | r in requests :: r.Destroy?
  {
    if n == 0 then []
    else
      var (entity, remaining) := members[n - 1];
      ExpireBefore(members, n - 1, time) + (if remaining - time <= 0.0 then [Destroy(entity)] else [])
  }

  /** The destroy requests one update issues for the whole family. */
  function Expire(members: seq<(EntityId, real)>, time: real): (requests: seq<Request>)
    ensures |requests| <= |members|
    ensures forall r | r in requests :: r.Destroy?
  {
    ExpireBefore(members, |members|, time)
  }

  predicate UniqueEntities(members: seq<(EntityId, real)>) {
    forall i, j | 0 <= i < j < |members| :: members[i].0 != members[j].0
  }

  /** `ExpireDestroysExactlyTheSpent` for the first `n` members. */
  lemma {:induction false} ExpireBeforeDestroysExactlyTheSpent(members: seq<(EntityId, real)>, n: nat, time: real)
    requires n <= |members|
    ensures forall e | Destroy(e) in ExpireBefore(members, n, time) :: exists i :: 0 <= i < n && members[i].0 == e
    ensures forall i | 0 <= i < n && members[i].1 - time <= 0.0 :: Destroy(members[i].0) in ExpireBefore(members, n, time)
    ensures UniqueEntities(members) ==>
              forall i | 0 <= i < n && Destroy(members[i].0) in ExpireBefore(members, n, time) :: members[i].1 - time <= 0.0
    ensures UniqueEntities(members) ==>
              forall i, j | 0 <= i < j < |ExpireBefore(members, n, time)| ::
                ExpireBefore(members, n, time)[i] != ExpireBefore(members, n, time)[j]
  {
    if n > 0 {
      var m := n - 1;
      ExpireBeforeDestroysExactlyTheSpent(members, m, time);
      var before := ExpireBefore(members, m, time);
      var after := ExpireBefore(members, n, time);
      assert after == before + (if members[m].1 - time <= 0.0 then [Destroy(members[m].0)] else []);
      forall e | Destroy(e) in after ensures exists i :: 0 <= i < n && members[i].0 == e {
        if Destroy(e) in before {
          var i :| 0 <= i < m && members[i].0 == e;
        } else {
          assert members[m].0 == e;
        }
      }
      forall i | 0 <= i < n && members[i].1 - time <= 0.0 ensures Destroy(members[i].0) in after {
        if i < m {
          assert Destroy(members[i].0) in before;
        }
      }
      if UniqueEntities(members) {
        assert Destroy(members[m].0) !in before;
        forall i | 0 <= i < n && Destroy(members[i].0) in after ensures members[i].1 - time <= 0.0 {
          if i < m {
            assert members[i].0 != members[m].0;
          }
        }
      }
    }
  }

  /** Only members are destroyed; with one member per entity, an entity is destroyed exactly
      when its time after the decrement is not positive, and at most once. */
  lemma ExpireDestroysExactlyTheSpent(members: seq<(EntityId, real)>, time: real)
    ensures forall e | Destroy(e) in Expire(members, time) :: exists i :: 0 <= i < |members| && members[i].0 == e
    ensures forall i | 0 <= i < |members| && members[i].1 - time <= 0.0 :: Destroy(members[i].0) in Expire(members, time)
    ensures UniqueEntities(members) ==>
              forall i | 0 <= i < |members| && Destroy(members[i].0) in Expire(members, time) :: members[i].1 - time <= 0.0
    ensures UniqueEntities(members) ==>
              forall i, j | 0 <= i < j < |Expire(members, time)| :: Expire(members, time)[i] != Expire(members, time)[j]
  {
    ExpireBeforeDestroysExactlyTheSpent(members, |members|, time);
  }

  function BulletTimes(family: seq<(EntityId, Bullet)>): (times: seq<(EntityId, real)>)
    reads set m | m in family :: m.1
    ensures |times| == |family|
    ensures forall i | 0 <= i < |family| :: times[i] == (family[i].0, family[i].1.lifeRemaining)
  {
    if family == [] then [] else [(family[0].0, family[0].1.lifeRemaining)] + BulletTimes(family[1..])
  }

  function ThroesTimes(family: seq<(EntityId, DeathThroes)>): (times: seq<(EntityId, real)>)
    reads set m | m in family :: m.1
    ensures |times| == |family|
    ensures forall i | 0 <= i < |family| :: times[i] == (family[i].0, family[i].1.countdown)
  {
    if family == [] then [] else [(family[0].0, family[0].1.countdown)] + ThroesTimes(family[1..])
  }

  /** `bullet.lifeRemaining -= time`, reporting whether the bullet is spent. */
  method Age(bullet: Bullet, time: real) returns (spent: bool)
    modifies bullet
    ensures bullet.lifeRemaining == old(bullet.lifeRemaining) - time
    ensures spent == (old(bullet.lifeRemaining) - time <= 0.0)
  {
    bullet.lifeRemaining := bullet.lifeRemaining - time;
    spent := bullet.lifeRemaining <= 0.0;
  }

  /** `deathThroes.countdown -= time`, reporting whether the countdown has run out. */
  method CountDown(death: DeathThroes, time: real) returns (spent: bool)
    modifies death
    ensures death.countdown == old(death.countdown) - time
    ensures spent == (old(death.countdown) - time <= 0.0)
  {
    death.countdown := death.countdown - time;
    spent := death.countdown <= 0.0;
  }

  /** The first `k` bullets have aged by `time` since `before`; the others are as they were. */
  ghost predicate AgedBefore(family: seq<(EntityId, Bullet)>, before: seq<(EntityId, real)>, time: real, k: nat)
    reads set m | m in family :: m.1
  {
    |before| == |family| &&
    (forall i | 0 <= i < k && i < |family| :: family[i].1.lifeRemaining == before[i].1 - time) &&
    forall i | k <= i < |family| :: family[i].1.lifeRemaining == before[i].1
  }

  /** The loop body of BulletAgeUpdate for the `k`-th bullet, with its effect accumulated. */
  method AgeNext(family: seq<(EntityId, Bullet)>, k: nat, time: real, requests: seq<Request>, ghost before: seq<(EntityId, real)>)
    returns (requests': seq<Request>)
    requires forall i, j | 0 <= i < j < |family| :: family[i].1 != family[j].1
    requires k < |family| == |before| && before[k].0 == family[k].0
    requires AgedBefore(family, before, time, k) && requests == ExpireBefore(before, k, time)
    modifies family[k].1
    ensures AgedBefore(family, before, time, k + 1) && requests' == ExpireBefore(before, k + 1, time)
  {
    var spent := Age(family[k].1, time);
    requests' := requests + if spent then [Destroy(family[k].0)] else [];
  }

  /** BulletAgeSystem.update(time:) over the family of entities holding a Bullet. */
  method BulletAgeUpdate(family: seq<(EntityId, Bullet)>, time: real) returns (requests: seq<Request>)
    requires forall i, j | 0 <= i < j < |family| :: family[i].1 != family[j].1
    modifies set m | m in family :: m.1
    ensures forall i | 0 <= i < |family| :: family[i].1.lifeRemaining == old(family[i].1.lifeRemaining) - time
    ensures requests == Expire(old(BulletTimes(family)), time)
  {
    ghost var before := BulletTimes(family);
    requests := [];
    for k := 0 to |family|
      invariant AgedBefore(family, before, time, k) && requests == ExpireBefore(before, k, time)
    {
      requests := AgeNext(family, k, time, requests, before);
    }
  }

  /** The first `k` countdowns have run down by `time` since `before`; the others are as they were. */
  ghost predicate CountedBefore(family: seq<(EntityId, DeathThroes)>, before: seq<(EntityId, real)>, time: real, k: nat)
    reads set m | m in family :: m.1
  {
    |before| == |family| &&
    (forall i | 0 <= i < k && i < |family| :: family[i].1.countdown == before[i].1 - time) &&
    forall i | k <= i < |family| :: family[i].1.countdown == before[i].1
  }

  /** The loop body of DeathThroesUpdate for the `k`-th entity, with its effect accumulated. */
  method CountDownNext(family: seq<(EntityId, DeathThroes)>, k: nat, time: real, requests: seq<Request>, ghost before: seq<(EntityId, real)>)
    returns (requests': seq<Request>)
    requires forall i, j | 0 <= i < j < |family| :: family[i].1 != family[j].1
    requires k < |family| == |before| && before[k].0 == family[k].0
    requires CountedBefore(family, before, time, k) && requests == ExpireBefore(before, k, time)
    modifies family[k].1
    ensures CountedBefore(family, before, time, k + 1) && requests' == ExpireBefore(before, k + 1, time)
  {
    var spent := CountDown(family[k].1, time);
    requests' := requests + if spent then [Destroy(family[k].0)] else [];
  }

  /** DeathThroesSystem.update(time:) over the family of entities holding DeathThroes. */
  method DeathThroesUpdate(family: seq<(EntityId, DeathThroes)>, time: real) returns (requests: seq<Request>)
    requires forall i, j | 0 <= i < j < |family| :: family[i].1 != family[j].1
    modifies set m | m in family :: m.1
    ensures forall i | 0 <= i < |family| :: family[i].1.countdown == old(family[i].1.countdown) - time
    ensures requests == Expire(old(ThroesTimes(family)), time)
  {
    ghost var before := ThroesTimes(family);
    requests := [];
    for k := 0 to |family|
      invariant CountedBefore(family, before, time, k) && requests == ExpireBefore(before, k, time)
    {
      requests := CountDownNext(family, k, time, requests, before);
    }
  }
}
