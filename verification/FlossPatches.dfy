/**
 Patches 0001 and 0002 to Floss's bta_hh_le.cc: completing the truncated report
 map when it is saved, and recognising the keyboard from its cached map, whether
 that is the one received or the one completed. The SHA-256 comparison of the
 patches is modelled as equality with the one map it stands for.
*/
module FlossPatches {
  import opened Bytes
  import opened UhidCodec
  import opened Wrappers
  import ReportMap
  import UhidShim

  const GATT_MAX_ATTR_LEN: nat := 512

  predicate IsTruncatedMap(len: nat, desc: seq<byte>)
    requires len <= |desc|
  {
    len == GATT_MAX_ATTR_LEN && desc[..len] == ReportMap.TRUNCATED
  }

  /**
   bta_hh_le_save_report_map: the stored map for a received one. longReport is the
   interop database's answer for the device, brydge the suffix it selects.
  */
  function Save(desc: seq<byte>, longReport: bool, brydge: seq<byte>): seq<byte> {
    if IsTruncatedMap(|desc|, desc) then desc + ReportMap.RESIDUAL
    else if |desc| == GATT_MAX_ATTR_LEN && longReport then desc + brydge
    else desc
  }

  /** The HID service record whose report map is saved. */
  class HidService {
    var rptMap: array<byte>

    constructor ()
      ensures fresh(rptMap) && rptMap[..] == []
    {
      rptMap := new byte[0];
    }

    /** osi_malloc, STREAM_TO_ARRAY and memcpy: a fresh buffer with the received map and what completes it. */
    method Store(desc: array<byte>, more: seq<byte>) returns (len: nat)
      modifies this
      ensures fresh(rptMap) && rptMap[..] == desc[..] + more && len == rptMap.Length
    {
      len := desc.Length + |more|;
      rptMap := new byte[len];
      forall i | 0 <= i < desc.Length {
        rptMap[i] := desc[i];
      }
      UhidShim.CopyInto(rptMap, desc.Length, more);
    }

    method SaveReportMap(desc: array<byte>, longReport: bool, brydge: seq<byte>) returns (len: nat)
      modifies this
      ensures fresh(rptMap) && rptMap[..] == Save(desc[..], longReport, brydge) && len == rptMap.Length
    {
      assert desc[..desc.Length] == desc[..];
      if IsTruncatedMap(desc.Length, desc[..]) {
        len := Store(desc, ReportMap.RESIDUAL);
      } else if desc.Length == GATT_MAX_ATTR_LEN && longReport {
        len := Store(desc, brydge);
      } else {
        len := Store(desc, []);
      }
    }
  }

  /** is_lenovo_duet_5_report_map; None stands for a null descriptor list. */
  predicate Recognised(cached: Option<seq<byte>>) {
    && cached.Some? && |cached.value| >= GATT_MAX_ATTR_LEN
    && IsTruncatedMap(GATT_MAX_ATTR_LEN, cached.value)
  }

  /** The keyboard's map is completed to the five-contact map; every other keeps the path it had. */
  lemma SaveRepairsOnlyTruncated(desc: seq<byte>, longReport: bool, brydge: seq<byte>)
    ensures desc == ReportMap.TRUNCATED ==> Save(desc, longReport, brydge) == ReportMap.MapBytes(5)
    ensures desc != ReportMap.TRUNCATED ==>
              Save(desc, longReport, brydge) ==
              if |desc| == GATT_MAX_ATTR_LEN && longReport then desc + brydge else desc
    ensures Save(desc, longReport, brydge)[..|desc|] == desc
  {
    assert desc[..|desc|] == desc;
    ReportMap.TruncatedLength();
    if desc == ReportMap.TRUNCATED {
      ReportMap.ResidualCompletes();
    }
  }

  /** Saving, by either branch, never changes what patch 0002 recognises. */
  lemma RecognitionStable(desc: seq<byte>, longReport: bool, brydge: seq<byte>)
    ensures Recognised(Some(Save(desc, longReport, brydge))) <==> Recognised(Some(desc))
  {
    var saved := Save(desc, longReport, brydge);
    SaveRepairsOnlyTruncated(desc, longReport, brydge);
    if |desc| >= GATT_MAX_ATTR_LEN {
      assert saved[..GATT_MAX_ATTR_LEN] == saved[..|desc|][..GATT_MAX_ATTR_LEN];
    }
  }

  /** Recognition also survives the shim, which replaces the truncated map by the four-contact one. */
  lemma RecognitionStableUnderShim(h: Header, desc: seq<byte>)
    requires h.Valid() && |desc| <= UHID_DATA_MAX
    ensures var out := DecodeCreate2(UhidShim.Rewrite(Create2(h, desc)));
            out.Some? && (Recognised(Some(out.value.descriptor)) <==> Recognised(Some(desc)))
  {
    UhidShim.RewriteDecodes(h, desc);
    if desc == ReportMap.TRUNCATED {
      RepairRecognised();
    }
  }

  /** The truncated map and the one that replaces it are both recognised. */
  lemma RepairRecognised()
    ensures Recognised(Some(ReportMap.TRUNCATED)) && Recognised(Some(ReportMap.REPAIRED))
  {
    ReportMap.TruncatedLength();
    assert ReportMap.TRUNCATED[..GATT_MAX_ATTR_LEN] == ReportMap.TRUNCATED;
    RecognisedFamily(4);
  }

  /** Of the family, exactly the maps with at least four contacts belong to the recognised keyboard. */
  lemma RecognisedFamily(k: nat)
    ensures Recognised(Some(ReportMap.MapBytes(k))) <==> k >= 4
  {
    var m := ReportMap.MapBytes(k);
    ReportMap.MapLength(k);
    ReportMap.TruncatedLength();
    ReportMap.TruncatedPrefix(k);
    if |m| >= GATT_MAX_ATTR_LEN {
      assert ReportMap.TRUNCATED <= m <==> m[..GATT_MAX_ATTR_LEN] == ReportMap.TRUNCATED;
    }
  }
}
