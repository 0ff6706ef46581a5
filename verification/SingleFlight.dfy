/** Concurrent calls with the same key share one run (apps/api/src/http/singleFlight.ts). A run is named by a number. */
module SingleFlight {
  class Flight {
    var running: map<string, nat>

    constructor ()
      ensures running == map[]
    {
      running := map[];
    }

    /** Joins the run of the key, or starts the given one. */
    method Run(key: string, id: nat) returns (run: nat, started: bool)
      modifies this
      ensures started <==> key !in old(running)
      ensures running == if started then old(running)[key := id] else old(running)
      ensures key in running && run == running[key]
    {
      if key in running {
        return running[key], false;
      }
      running := running[key := id];
      return id, true;
    }

    /** The run settles: the key is free again. */
    method Settle(key: string)
      modifies this
      ensures running == old(running) - {key}
    {
      running := running - {key};
    }
  }
}
