/** Whom a wake-up of one thread reaches: FUTEX_WAKE with count 1 and pthread_cond_signal. */
module Wakeups {
  // Some sleeper: the preferred one, else the first. |at| when there is none.
  function Sleeper<T(==)>(at: seq<T>, asleep: T, wake: nat): (u: nat)
    ensures u <= |at|
    ensures u < |at| ==> at[u] == asleep
    ensures u == |at| ==> forall v :: 0 <= v < |at| ==> at[v] != asleep
  {
    if wake < |at| && at[wake] == asleep then wake else FirstAsleep(at, asleep, 0)
  }

  function FirstAsleep<T(==)>(at: seq<T>, asleep: T, from: nat): (u: nat)
    requires from <= |at|
    ensures from <= u <= |at|
    ensures u < |at| ==> at[u] == asleep
    ensures u == |at| ==> forall v :: from <= v < |at| ==> at[v] != asleep
    decreases |at| - from
  {
    if from == |at| || at[from] == asleep then from else FirstAsleep(at, asleep, from + 1)
  }

  // One sleeper, if there is any, goes on to `awake`.
  function WakeOne<T(==)>(at: seq<T>, asleep: T, awake: T, wake: nat): (at': seq<T>)
    ensures |at'| == |at|
  {
    var u := Sleeper(at, asleep, wake);
    if u < |at| then at[u := awake] else at
  }

  function Sleepers<T(==)>(at: seq<T>, asleep: T): set<nat> {
    set u | 0 <= u < |at| && at[u] == asleep
  }

  /** What a wake-up of one may do: exactly one sleeper wakes if there is any, the preferred
      one if it sleeps, and nobody else is touched. */
  ghost predicate WakesOne<T>(at: seq<T>, at': seq<T>, asleep: T, awake: T, wake: nat) {
    && |at'| == |at|
    && (Sleepers(at, asleep) == {} ==> at' == at)
    && (Sleepers(at, asleep) != {} ==>
          exists u :: u in Sleepers(at, asleep) && (wake in Sleepers(at, asleep) ==> u == wake)
                      && Sleepers(at', asleep) == Sleepers(at, asleep) - {u}
                      && at' == at[u := awake])
  }

  lemma WakeOneWakesOne<T>(at: seq<T>, asleep: T, awake: T, wake: nat)
    requires asleep != awake
    ensures WakesOne(at, WakeOne(at, asleep, awake, wake), asleep, awake, wake)
  {
    var u := Sleeper(at, asleep, wake);
    if u < |at| {
      assert u in Sleepers(at, asleep);
      var at' := at[u := awake];
      assert Sleepers(at', asleep) == Sleepers(at, asleep) - {u};
    }
  }
}
