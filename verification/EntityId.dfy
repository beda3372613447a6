/** Entity handles: a tenant tag, an arena slot and a generation packed into one 64-bit word. */
module EntityIds {
  import opened Wrappers

  const MAX_TENANT := 4095
  const MAX_SLOT := 0xFFFF_FFFF
  const MAX_GENERATION := 1048575

  type TenantTag = n: nat | n <= MAX_TENANT
  type SlotIndex = n: nat | n <= MAX_SLOT
  type Generation = n: nat | n <= MAX_GENERATION

  const FIRST: Generation := 0

  /** The generation after `g`, or None when the 20-bit counter would wrap. */
  function Next(g: Generation): Option<Generation> {
    if g >= MAX_GENERATION then None else Some(g + 1)
  }

  // The rest of the project works with the unpacked record; PackUnpack and UnpackPack below are
  // what makes comparing two records the same as comparing the two words.
  datatype EntityId = EntityId(tenant: TenantTag, slot: SlotIndex, generation: Generation)

  const MAX_ROWID := 0x7FFF_FFFF_FFFF_FFFF

  /** An entity's durable identity: its row id. */
  type EntityKey = n: nat | 0 < n <= MAX_ROWID witness 1

  const TENANT_MASK: bv64 := 0xFFF
  const SLOT_MASK: bv64 := 0xFFFF_FFFF
  const GENERATION_MASK: bv64 := 0xF_FFFF

  function Pack(tenant: bv64, slot: bv64, generation: bv64): bv64 {
    (tenant << 52) | (slot << 20) | (generation << 0)
  }

  function TenantOf(bits: bv64): bv64 {
    (bits >> 52) & TENANT_MASK
  }

  function SlotOf(bits: bv64): bv64 {
    (bits >> 20) & SLOT_MASK
  }

  function GenerationOf(bits: bv64): bv64 {
    (bits >> 0) & GENERATION_MASK
  }

  /** Fields that fit their widths never overlap in the word: each comes back unchanged. */
  lemma PackUnpack(tenant: bv64, slot: bv64, generation: bv64)
    requires tenant <= TENANT_MASK && slot <= SLOT_MASK && generation <= GENERATION_MASK
    ensures TenantOf(Pack(tenant, slot, generation)) == tenant
    ensures SlotOf(Pack(tenant, slot, generation)) == slot
    ensures GenerationOf(Pack(tenant, slot, generation)) == generation
  {
  }

  lemma FieldsMaskApart(bits: bv64)
    ensures ((bits >> 52) & 0xFFF) << 52 == bits & 0xFFF0_0000_0000_0000
    ensures ((bits >> 20) & 0xFFFF_FFFF) << 20 == bits & 0x000F_FFFF_FFF0_0000
    ensures ((bits >> 0) & 0xF_FFFF) << 0 == bits & 0xF_FFFF
  {
  }

  lemma MasksCover(bits: bv64)
    ensures (bits & 0xFFF0_0000_0000_0000) | (bits & 0x000F_FFFF_FFF0_0000) | (bits & 0xF_FFFF) == bits
  {
  }

  /** The projections of any word fit the widths the parsers of the components accept. */
  lemma FieldsFit(bits: bv64)
    ensures TenantOf(bits) <= TENANT_MASK
    ensures SlotOf(bits) <= SLOT_MASK
    ensures GenerationOf(bits) <= GENERATION_MASK
  {
  }

  /** Every word is the packing of its own fields, so the encoding wastes no bit pattern. */
  lemma UnpackPack(bits: bv64)
    ensures Pack(TenantOf(bits), SlotOf(bits), GenerationOf(bits)) == bits
  {
    FieldsMaskApart(bits);
    MasksCover(bits);
  }
}
