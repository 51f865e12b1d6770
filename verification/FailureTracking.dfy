/** failureTracker: the set of failing keys of one watcher, and the gauge that
    several watchers of the same GVK share. */
module FailureTracking {

  class Gauge {
    var value: int

    constructor ()
      ensures value == 0
    {
      value := 0;
    }
  }

  /** The set of failing keys after one more marking. */
  function Marked<K>(failed: set<K>, key: K, failure: bool): set<K> {
    if failure then failed + {key} else failed - {key}
  }

  class FailureTracker<K(==)> {
    const gauge: Gauge
    var failed: set<K>

    constructor (gauge: Gauge)
      ensures this.gauge == gauge && failed == {}
    {
      this.gauge := gauge;
      failed := {};
    }

    /** What a marking may change: a nil tracker ignores all updates. */
    static function Touched(t: FailureTracker?<K>): set<object> {
      if t == null then {} else {t, t.gauge}
    }

    static method MarkFailed(t: FailureTracker?<K>, key: K)
      modifies Touched(t)
      ensures t != null ==> t.failed == Marked(old(t.failed), key, true)
      ensures t != null ==> t.gauge.value == old(t.gauge.value) + |t.failed| - |old(t.failed)|
    {
      if t == null {
        return;
      }
      if key !in t.failed {
        t.failed := t.failed + {key};
        t.gauge.value := t.gauge.value + 1;
      } else {
        assert t.failed + {key} == t.failed;
      }
    }

    static method MarkSucceeded(t: FailureTracker?<K>, key: K)
      modifies Touched(t)
      ensures t != null ==> t.failed == Marked(old(t.failed), key, false)
      ensures t != null ==> t.gauge.value == old(t.gauge.value) + |t.failed| - |old(t.failed)|
    {
      if t == null {
        return;
      }
      if key in t.failed {
        t.failed := t.failed - {key};
        t.gauge.value := t.gauge.value - 1;
      } else {
        assert t.failed - {key} == t.failed;
      }
    }
  }
}
