/**
 * PodReconcilerConfig: the one tunable shared by the two reconcilers. In the
 * source a mutex serialises every access; in this sequential model each call
 * is atomic and the lock disappears.
 */
module Config {
  import opened Durations

  class PodReconcilerConfig {
    /** The minimum age a non-running pod must reach before it may be deleted. */
    var maxPodAge: Duration

    /** NewPodReconcilerConfig: starts from the conservative default of one hour. */
    constructor ()
      ensures maxPodAge == Hour
    {
      maxPodAge := Hour;
    }

    /** SetMaxPodAge: overwrites the field with `d`, unconditionally and with no range check. */
    method SetMaxPodAge(d: Duration)
      modifies this`maxPodAge
      ensures maxPodAge == d
    {
      maxPodAge := d;
    }

    /** MaxPodAge: reads the field; it has no modifies clause, so it changes nothing. */
    method MaxPodAge() returns (d: Duration)
      ensures d == maxPodAge
    {
      d := maxPodAge;
    }
  }

  /**
   * Read-after-write: a MaxPodAge call that follows SetMaxPodAge(d), with no
   * other write in between, returns exactly `d`.
   */
  method SetThenGet(c: PodReconcilerConfig, d: Duration) returns (got: Duration)
    modifies c
    ensures got == d && c.maxPodAge == d
  {
    c.SetMaxPodAge(d);
    got := c.MaxPodAge();
  }

  /** A fresh configuration reads one hour until someone sets it. */
  method DefaultThenGet() returns (c: PodReconcilerConfig, got: Duration)
    ensures fresh(c) && got == Hour && c.maxPodAge == Hour
  {
    c := new PodReconcilerConfig();
    got := c.MaxPodAge();
  }
}
