/** The bridge's tables of input reports against the report maps they describe. */
module InputLengths {
  import opened BridgeLoop
  import ReportMap

  function InputBits(reportId: nat, contacts: nat): nat {
    ReportMap.Run(ReportMap.Query(ReportMap.INPUT, reportId), ReportMap.START, ReportMap.Map(contacts)).bits
  }

  lemma InputBitsFormula(reportId: nat, contacts: nat)
    ensures InputBits(reportId, contacts) ==
            if reportId == 1 then 88 else if reportId == 2 then 48 else if reportId == 3 then 24
            else if reportId == 4 then 8 else if reportId == 6 then 32 * contacts + 32 else 0
  {
    ReportMap.MapFamily(contacts, ReportMap.Query(ReportMap.INPUT, reportId));
  }

  /**
   The lengths the bridge expects are the input lengths of the four-contact map it
   creates its device with. With any other number of contacts only Report ID 6, of
   handle 76, differs, by four bytes a contact.
  */
  lemma ExpectedLengths(handle: nat, contacts: nat)
    requires handle in INPUT_HANDLES
    ensures handle in EXPECTED_LENGTHS
    ensures InputBits(INPUT_HANDLES[handle], contacts) ==
            8 * (EXPECTED_LENGTHS[handle] + if handle == 76 then 4 * (contacts - 4) else 0)
  {
    InputBitsFormula(INPUT_HANDLES[handle], contacts);
  }

  /** The bridge forwards every input report the maps declare, and no other Report ID has one. */
  lemma InputReportsCovered(reportId: nat, contacts: nat)
    ensures InputBits(reportId, contacts) > 0 <==> reportId in INPUT_HANDLES.Values
  {
    InputBitsFormula(reportId, contacts);
    ReportIds(reportId);
  }

  lemma ReportIds(reportId: nat)
    ensures reportId in INPUT_HANDLES.Values
       <==> reportId == 1 || reportId == 2 || reportId == 3 || reportId == 4 || reportId == 6
  {
    assert INPUT_HANDLES[49] == 1 && INPUT_HANDLES[57] == 2 && INPUT_HANDLES[61] == 3
           && INPUT_HANDLES[65] == 4 && INPUT_HANDLES[76] == 6;
  }
}
