/**
 * The group-info lookup of band extension, which the unpacking stage uses as well: for a block
 * coding 13 to 30 units, the band count and the units groups B and C start at.
 */
module BandExtensionInfo {
  import opened Wrappers
  import opened DecodeState
  import opened RuntimeTables

  /** Row `units - 13` of the group-info table: the band count and the first units of groups B and C. */
  datatype BexBandInfo = BexBandInfo(BandCount: int, GroupBUnit: int, GroupCUnit: int)

  /**
   * `getBexBandInfo`: the row of the group-info table for a block coding `quantUnits` units.
   * The table has rows for 13 to 30 units only; any other count reads a property of an
   * undefined row.
   */
  function GetBexBandInfo(quantUnits: int, t: CodecTables): (r: Result<BexBandInfo, DecodeError>)
    requires BexTables(t)
    ensures r.Success? <==> 13 <= quantUnits <= UNIT_SLOTS
    ensures r.Failure? ==> r.error == UndefinedAccess
    ensures r.Success? ==> BexRows(t, r.value.BandCount)
    ensures r.Success? ==> var row := t.BexGroupInfo[quantUnits - 13];
      r.value == BexBandInfo(row[2], row[0], row[1])
  {
    if 13 <= quantUnits <= UNIT_SLOTS then
      var row := t.BexGroupInfo[quantUnits - 13];
      Success(BexBandInfo(row[2], row[0], row[1]))
    else Failure(UndefinedAccess)
  }
}
