/** Entries of the DX label database, and the flag bits they are packed in. */
module DxList {

  /** `dx_t`: the three fields of `flags` are separate here. `dow` has a bit for each day,
      Monday the highest; times are hours times 100 plus minutes. */
  datatype Dx = Dx(
    freq: real, mode: nat, typ: nat, dow: nat, low: int, high: int, offset: int, sigBw: int,
    begin: nat, end: nat, ident: string, notes: string, params: string, idx: nat)

  /** Carrier plus offset. */
  function Effective(d: Dx): real { d.freq + d.offset as real / 1000.0 }

  /** In order of carriers, as the stored list is kept. */
  predicate Sorted(s: seq<Dx>) {
    forall i, j :: 0 <= i < j < |s| ==> s[i].freq <= s[j].freq
  }

  const ALL_DAYS := 127
  const MASKED := 15

  // ---- packing -----------------------------------------------------------------------

  const DX_MODE: bv32 := 0x0000000f
  const DX_MODE_16: bv32 := 0x00040000
  const DX_TYPE: bv32 := 0x000001f0
  const DX_DOW: bv32 := 0x0000fe00

  function EncodeMode(m: bv32): bv32 { (if m >= 16 then DX_MODE_16 else 0) | (m & DX_MODE) }

  function DecodeMode(f: bv32): bv32 { (if f & DX_MODE_16 != 0 then 16 else 0) | (f & DX_MODE) }

  function Pack(mode: bv32, typ: bv32, dow: bv32): bv32 {
    EncodeMode(mode) | ((typ << 4) & DX_TYPE) | ((dow << 9) & DX_DOW)
  }

  /** Mode, type and days are each recovered from the packed flags. */
  lemma Unpack(mode: bv32, typ: bv32, dow: bv32)
    requires mode < 32 && typ < 32 && dow < 128
    ensures var f := Pack(mode, typ, dow);
            DecodeMode(f) == mode && (f & DX_TYPE) >> 4 == typ && (f & DX_DOW) >> 9 == dow
  {
    UnpackMode(mode, typ, dow);
    UnpackType(mode, typ, dow);
    UnpackDow(mode, typ, dow);
  }

  lemma UnpackMode(mode: bv32, typ: bv32, dow: bv32)
    requires mode < 32 && typ < 32 && dow < 128
    ensures DecodeMode(Pack(mode, typ, dow)) == mode
  {
  }

  lemma UnpackType(mode: bv32, typ: bv32, dow: bv32)
    requires mode < 32 && typ < 32 && dow < 128
    ensures (Pack(mode, typ, dow) & DX_TYPE) >> 4 == typ
  {
  }

  lemma UnpackDow(mode: bv32, typ: bv32, dow: bv32)
    requires mode < 32 && typ < 32 && dow < 128
    ensures (Pack(mode, typ, dow) & DX_DOW) >> 9 == dow
  {
  }
}
