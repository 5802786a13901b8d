/** The incident store as an object (src/soc_integration/incidents.py). */
module IncidentStores {
  import opened Basics
  import opened Alerts

  class IncidentStore {
    /** Per fingerprint the case, or None while it is reserved. */
    var table: map<string, Option<CaseId>>

    constructor ()
      ensures table == map[]
    {
      table := map[];
    }

    /** Reserves an unknown fingerprint; a known one answers with its case, if it has one. */
    method Reserve(fingerprint: string) returns (reserved: bool, existing: Option<CaseId>)
      modifies this
      ensures reserved <==> fingerprint !in old(table)
      ensures reserved ==> existing == None && table == old(table)[fingerprint := None]
      ensures !reserved ==> existing == old(table)[fingerprint] && table == old(table)
    {
      if fingerprint in table {
        return false, table[fingerprint];
      }
      table := table[fingerprint := None];
      reserved, existing := true, None;
    }

    method Complete(fingerprint: string, caseId: CaseId)
      modifies this
      ensures table == if fingerprint in old(table) then old(table)[fingerprint := Some(caseId)] else old(table)
    {
      if fingerprint in table {
        table := table[fingerprint := Some(caseId)];
      }
    }

    /** Gives up a reservation, but never a recorded case. */
    method Release(fingerprint: string)
      modifies this
      ensures table == if fingerprint in old(table) && old(table)[fingerprint].None?
                       then old(table) - {fingerprint} else old(table)
    {
      if fingerprint in table && table[fingerprint].None? {
        table := table - {fingerprint};
      }
    }
  }
}
