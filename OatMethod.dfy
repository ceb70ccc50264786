// The table accessors of an OatMethod. A compiled method's mapping table
// and vmap table sit before its code; the OatMethodHeader just before the
// code gives each table's distance back from the code, with 0 meaning "no
// table". The accessors turn that into a pointer, and the pointer into an
// offset from the start of the oat file, truncated to 32 bits.
//
// Pointers are addresses. The code pointer derived from the method's quick
// entry point, and the header read just before it, are inputs.
module OatMethod {

  const kUint32Range := 0x1_0000_0000

  type Uint32 = x: int | 0 <= x < kUint32Range

  /** A pointer into memory: null, or an address. */
  datatype Pointer = Null | Address(addr: int)

  /** The two offsets of an OatMethodHeader: how far before the code each table starts. */
  datatype OatMethodHeader = OatMethodHeader(mappingTableOffset: Uint32, vmapTableOffset: Uint32)

  /**
   * An OatMethod as the accessors see it: the start of the oat file
   * (begin_), the code pointer its quick entry point leads to, and the
   * header stored just before that code.
   */
  datatype OatMethod = OatMethod(begin: int, code: Pointer, header: OatMethodHeader)

  /**
   * A table `offset` bytes before the code: null when there is no code or
   * when the offset is the 0 sentinel.
   */
  function TableBeforeCode(code: Pointer, offset: Uint32): (r: Pointer)
    ensures r.Null? <==> code.Null? || offset == 0
    ensures r.Address? ==> code.addr - r.addr == offset
  {
    if code.Null? then Null
    else if offset == 0 then Null
    else Address(code.addr - offset)
  }

  /**
   * A table's offset from the start of the oat file, as a uint32: 0 for no
   * table, otherwise the pointer difference truncated to 32 bits.
   */
  function TableOffset(table: Pointer, begin: int): (r: Uint32)
    ensures table.Null? ==> r == 0
    ensures table.Address? ==> (table.addr - begin - r) % kUint32Range == 0
  {
    if table.Null? then 0 else (table.addr - begin) % kUint32Range
  }

  /** The method's mapping table: null without code or for the 0 sentinel. */
  function GetMappingTable(m: OatMethod): (r: Pointer)
    ensures r.Null? <==> m.code.Null? || m.header.mappingTableOffset == 0
    ensures r.Address? ==> r.addr == m.code.addr - m.header.mappingTableOffset
  {
    TableBeforeCode(m.code, m.header.mappingTableOffset)
  }

  /** The method's vmap table, by the same rule. */
  function GetVmapTable(m: OatMethod): (r: Pointer)
    ensures r.Null? <==> m.code.Null? || m.header.vmapTableOffset == 0
    ensures r.Address? ==> r.addr == m.code.addr - m.header.vmapTableOffset
  {
    TableBeforeCode(m.code, m.header.vmapTableOffset)
  }

  /** The mapping table's 32-bit offset from the start of the oat file. */
  function GetMappingTableOffset(m: OatMethod): (r: Uint32)
    ensures GetMappingTable(m).Null? ==> r == 0
  {
    TableOffset(GetMappingTable(m), m.begin)
  }

  /** The vmap table's 32-bit offset from the start of the oat file. */
  function GetVmapTableOffset(m: OatMethod): (r: Uint32)
    ensures GetVmapTable(m).Null? ==> r == 0
  {
    TableOffset(GetVmapTable(m), m.begin)
  }

  // ---------------------------------------------------------------------
  // What the offsets mean.

  /**
   * A table that starts within 4 GiB after the start of the file is found
   * again from its offset; the offset is 0 exactly when there is no table
   * or the table starts at the very beginning of the file.
   */
  lemma TableOffsetLocates(table: Pointer, begin: int)
    requires table.Address? ==> begin <= table.addr < begin + kUint32Range
    ensures table.Address? ==> begin + TableOffset(table, begin) == table.addr
    ensures TableOffset(table, begin) == 0 <==> table.Null? || table.addr == begin
  {
    if table.Address? {
      var d := table.addr - begin;
      assert d % kUint32Range == d;
    }
  }

  /**
   * The mapping table, when there is one and it lies in the first 4 GiB of
   * the file, is at begin_ plus GetMappingTableOffset; the offset is 0 for
   * no code, for the 0 sentinel, and for a table at begin_ itself.
   */
  lemma MappingTableOffsetLocates(m: OatMethod)
    requires m.code.Address? && m.header.mappingTableOffset != 0 ==>
               m.begin <= m.code.addr - m.header.mappingTableOffset < m.begin + kUint32Range
    ensures GetMappingTable(m).Address? ==>
              m.begin + GetMappingTableOffset(m) == m.code.addr - m.header.mappingTableOffset
    ensures GetMappingTableOffset(m) == 0 <==>
              m.code.Null? || m.header.mappingTableOffset == 0 ||
              m.code.addr - m.header.mappingTableOffset == m.begin
  {
    TableOffsetLocates(GetMappingTable(m), m.begin);
  }

  /** The same for the vmap table and GetVmapTableOffset. */
  lemma VmapTableOffsetLocates(m: OatMethod)
    requires m.code.Address? && m.header.vmapTableOffset != 0 ==>
               m.begin <= m.code.addr - m.header.vmapTableOffset < m.begin + kUint32Range
    ensures GetVmapTable(m).Address? ==>
              m.begin + GetVmapTableOffset(m) == m.code.addr - m.header.vmapTableOffset
    ensures GetVmapTableOffset(m) == 0 <==>
              m.code.Null? || m.header.vmapTableOffset == 0 ||
              m.code.addr - m.header.vmapTableOffset == m.begin
  {
    TableOffsetLocates(GetVmapTable(m), m.begin);
  }

  /**
   * The truncation: a table 4 GiB or more past begin_ gets the offset of a
   * table 4 GiB earlier, so two different tables can share one offset.
   */
  lemma TableOffsetWraps(begin: int, d: int)
    requires 0 <= d < kUint32Range
    ensures TableOffset(Address(begin + d + kUint32Range), begin) == TableOffset(Address(begin + d), begin) == d
  {
    assert (d + kUint32Range) % kUint32Range == d;
  }
}
