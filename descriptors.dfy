/**
 * The port descriptor of the first server snapshot (server/descriptors.py):
 * assignments outside the unprivileged port range are refused.
 */
module Descriptors {
  import opened Envelope

  const DEFAULT_PORT := 7777
  const MIN_PORT := 1024
  const PORT_LIMIT := 65535

  /** The values `__set__` accepts: an int with 1024 <= v < 65535. */
  predicate Acceptable(v: Value) {
    v.Int? && MIN_PORT <= v.i < PORT_LIMIT
  }

  class PortDescr {
    var port: int

    constructor (port: int)
      ensures this.port == port
    {
      this.port := port;
    }

    /** `__set__`: stores an acceptable value; anything else raises ValueError (raised) and leaves the port. */
    method Set(v: Value) returns (raised: bool)
      modifies this
      ensures raised <==> !Acceptable(v)
      ensures raised ==> port == old(port)
      ensures !raised ==> port == v.i
    {
      if v.Int? && PORT_LIMIT > v.i >= MIN_PORT {
        port := v.i;
        raised := false;
      } else {
        raised := true;
      }
    }

    /** `__get__`. */
    function Get(): (p: int)
      reads this
      ensures p == port
    {
      port
    }
  }

  /** The stored port only ever moves to acceptable values: from the default, it stays in range. */
  method SetKeepsRange(d: PortDescr, v: Value) returns (raised: bool)
    requires MIN_PORT <= d.port < PORT_LIMIT
    modifies d
    ensures MIN_PORT <= d.Get() < PORT_LIMIT
    ensures raised <==> !Acceptable(v)
  {
    raised := d.Set(v);
  }
}
