// The plain damageable health component (EnemyHealth): an unclamped hit-point
// counter that requests its own removal whenever a hit leaves it at or below
// zero. Removal is deferred by the engine, so the component keeps receiving hits
// until it is gone; the model counts the removal requests.

/** Hit points and the number of removal requests made so far. */
datatype EnemyHealthState = EnemyHealthState(hp: int, removals: nat)

/** One hit of `amount`. */
function HitStep(s: EnemyHealthState, amount: int): (r: EnemyHealthState)
  ensures r.hp == s.hp - amount
  ensures r.removals == s.removals + 1 <==> r.hp <= 0
  ensures r.removals == s.removals <==> r.hp > 0
{
  var hp := s.hp - amount;
  EnemyHealthState(hp, if hp <= 0 then s.removals + 1 else s.removals)
}

/** A run of hits, in order. */
function Hits(s: EnemyHealthState, amounts: seq<int>): EnemyHealthState
  decreases |amounts|
{
  if amounts == [] then s else Hits(HitStep(s, amounts[0]), amounts[1..])
}

/** Hit points after a run of hits are the starting points minus the total damage. */
lemma {:induction false} HitsTotal(s: EnemyHealthState, amounts: seq<int>)
  ensures Hits(s, amounts).hp == s.hp - SumInts(amounts)
  ensures Hits(s, amounts).removals <= s.removals + |amounts|
  decreases |amounts|
{
  if amounts != [] {
    HitsTotal(HitStep(s, amounts[0]), amounts[1..]);
  }
}

/** No dead guard: once at or below zero, every further non-negative hit requests
    removal again. */
lemma {:induction false} HitsBelowZeroAllRemove(s: EnemyHealthState, amounts: seq<int>)
  requires s.hp <= 0
  requires forall i :: 0 <= i < |amounts| ==> amounts[i] >= 0
  ensures Hits(s, amounts).removals == s.removals + |amounts|
  ensures Hits(s, amounts).hp <= 0
  decreases |amounts|
{
  if amounts != [] {
    HitsBelowZeroAllRemove(HitStep(s, amounts[0]), amounts[1..]);
  }
}

class EnemyHealth {
  const maxHp: int
  var hp: int
  /** Removal requests made (each would destroy the game object at the end of the frame). */
  var removals: nat

  function State(): EnemyHealthState
    reads this
  {
    EnemyHealthState(hp, removals)
  }

  /** Awake: full hit points. */
  constructor (maxHp: int)
    ensures this.maxHp == maxHp && hp == maxHp && removals == 0
  {
    this.maxHp := maxHp;
    hp := maxHp;
    removals := 0;
  }

  method TakeDamage(amount: int)
    modifies this`hp, this`removals
    ensures State() == HitStep(old(State()), amount)
  {
    hp := hp - amount;
    if hp <= 0 {
      Die();
    }
  }

  method Die()
    modifies this`removals
    ensures removals == old(removals) + 1
  {
    removals := removals + 1;
  }
}
