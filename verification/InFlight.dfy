/** The in-flight request set of pkg/util/inflight.  Each method runs under the mutex, so it is one step. */
module InFlightKeys {

  class InFlight {
    var inFlight: map<string, bool>

    ghost function Keys(): set<string>
      reads this
    {
      inFlight.Keys
    }

    constructor ()
      ensures Keys() == {}
    {
      inFlight := map[];
    }

    /** Inserts the key; false when it is already there. */
    method Insert(key: string) returns (ok: bool)
      modifies this
      ensures ok <==> key !in old(Keys())
      ensures Keys() == old(Keys()) + {key}
    {
      if key in inFlight {
        return false;
      }
      inFlight := inFlight[key := true];
      return true;
    }

    /** Removes the key, if it is there. */
    method Delete(key: string)
      modifies this
      ensures Keys() == old(Keys()) - {key}
    {
      inFlight := inFlight - {key};
    }
  }
}
