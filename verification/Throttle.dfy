/** Which position updates of a device pass the throttle, over whole runs. */
module Throttle {
  import opened Delivery

  datatype Call = Call(device: Id, now: int)

  predicate Blocks(lastUpdate: map<Id, int>, throttle: int, device: Id, now: int) {
    device in lastUpdate && now - lastUpdate[device] < throttle
  }

  /** The table after a run of calls: a passing call stores its time, a blocked one nothing. */
  function LastUpdates(throttle: int, calls: seq<Call>): map<Id, int>
    decreases |calls|
  {
    if calls == [] then map[]
    else
      var before := LastUpdates(throttle, calls[..|calls| - 1]);
      var c := calls[|calls| - 1];
      if Blocks(before, throttle, c.device, c.now) then before else before[c.device := c.now]
  }

  predicate Passes(throttle: int, calls: seq<Call>, i: nat)
    requires i < |calls|
  {
    !Blocks(LastUpdates(throttle, calls[..i]), throttle, calls[i].device, calls[i].now)
  }

  ghost predicate ClockForward(calls: seq<Call>) {
    forall i, j | 0 <= i < j < |calls| :: calls[i].now <= calls[j].now
  }

  /** The stored time of a device is that of its last passing call, if it has one. */
  lemma {:induction false} LastIsLatestPass(throttle: int, calls: seq<Call>, n: nat, device: Id)
    requires n <= |calls| && ClockForward(calls)
    ensures var last := LastUpdates(throttle, calls[..n]);
            && (device in last ==> exists j :: 0 <= j < n && calls[j].device == device && Passes(throttle, calls, j)
                                              && calls[j].now == last[device])
            && (forall j | 0 <= j < n && calls[j].device == device && Passes(throttle, calls, j) ::
                  device in last && calls[j].now <= last[device])
    decreases n
  {
    if n > 0 {
      LastIsLatestPass(throttle, calls, n - 1, device);
      assert calls[..n][..n - 1] == calls[..n - 1];
    }
  }

  /**
   * An update passes exactly if every earlier update of the same device that passed is at least
   * the throttle interval ago; so passing updates of a device are at least that far apart.
   */
  lemma PassesIffQuiet(throttle: int, calls: seq<Call>, i: nat)
    requires i < |calls| && ClockForward(calls)
    ensures Passes(throttle, calls, i) <==>
            forall j | 0 <= j < i && calls[j].device == calls[i].device && Passes(throttle, calls, j) ::
              calls[i].now - calls[j].now >= throttle
  {
    LastIsLatestPass(throttle, calls, i, calls[i].device);
  }
}
