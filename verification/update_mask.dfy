/**
 * The update mask of the reconciler: one bit per kind of StatefulSet update,
 * or-ed into a 32-bit mask that the reconciler keeps across passes.
 */
module UpdateMask {
  const StatefulSetSizeUpdated: bv32 := 1
  const StatefulSetClusterConfigUpdated: bv32 := 2
  const StatefulSetSSLConfigUpdated: bv32 := 4
  const StatefulSetImageUpdated: bv32 := 8
  const StatefulSetPersistentUpdated: bv32 := 16
  const StatefulSetAioUpdated: bv32 := 32
  const StatefulSetCommonConfigUpdated: bv32 := 64

  /** All seven flags. */
  const AllFlags: bv32 := 0x7F

  /** The flag when its sync reported an update, no bit otherwise. */
  function Bit(reported: bool, flag: bv32): bv32 {
    if reported then flag else 0
  }

  /** The bits one pass of `Process` adds, one per sync that reported an update. */
  function Reported(size: bool, cluster: bool, ssl: bool, image: bool, aio: bool, persistent: bool, common: bool): bv32 {
    Bit(size, StatefulSetSizeUpdated) | Bit(cluster, StatefulSetClusterConfigUpdated) | Bit(ssl, StatefulSetSSLConfigUpdated)
    | Bit(image, StatefulSetImageUpdated) | Bit(aio, StatefulSetAioUpdated) | Bit(persistent, StatefulSetPersistentUpdated)
    | Bit(common, StatefulSetCommonConfigUpdated)
  }

  /** The seven flags are the low seven bits, so the added bits never reach above them. */
  lemma ReportedWithin(size: bool, cluster: bool, ssl: bool, image: bool, aio: bool, persistent: bool, common: bool)
    ensures Reported(size, cluster, ssl, image, aio, persistent, common) & !AllFlags == 0
  {
  }

  /** The size bit is added exactly when the replica count was changed. */
  lemma ReportedSize(size: bool, cluster: bool, ssl: bool, image: bool, aio: bool, persistent: bool, common: bool)
    ensures Reported(size, cluster, ssl, image, aio, persistent, common) & StatefulSetSizeUpdated != 0 <==> size
  {
  }

  /** The journal-type bit is added exactly when the journal-type sync changed something. */
  lemma ReportedAio(size: bool, cluster: bool, ssl: bool, image: bool, aio: bool, persistent: bool, common: bool)
    ensures Reported(size, cluster, ssl, image, aio, persistent, common) & StatefulSetAioUpdated != 0 <==> aio
  {
  }

  /** No bit is added when no sync reported an update. */
  lemma ReportedNone()
    ensures Reported(false, false, false, false, false, false, false) == 0
  {
  }

  lemma OrKeeps(u: bv32, b: bv32)
    ensures (u | b) & u == u
  {
  }

  lemma OrHigh(u: bv32, b: bv32)
    requires b & !AllFlags == 0
    ensures (u | b) & !AllFlags == u & !AllFlags
  {
  }

  lemma OrBit(u: bv32, b: bv32, f: bv32)
    ensures (u | b) & f != 0 <==> u & f != 0 || b & f != 0
  {
  }

  /** Only the seven flags are ever added: the bits above them stay as they were. */
  lemma MaskHigh(u: bv32, size: bool, cluster: bool, ssl: bool, image: bool, aio: bool, persistent: bool, common: bool)
    ensures (u | Reported(size, cluster, ssl, image, aio, persistent, common)) & !AllFlags == u & !AllFlags
  {
    ReportedWithin(size, cluster, ssl, image, aio, persistent, common);
    OrHigh(u, Reported(size, cluster, ssl, image, aio, persistent, common));
  }

  /** The size flag is set after a pass exactly when it was set before or the replica count changed. */
  lemma MaskSize(u: bv32, size: bool, cluster: bool, ssl: bool, image: bool, aio: bool, persistent: bool, common: bool)
    ensures (u | Reported(size, cluster, ssl, image, aio, persistent, common)) & StatefulSetSizeUpdated != 0
      <==> u & StatefulSetSizeUpdated != 0 || size
  {
    ReportedSize(size, cluster, ssl, image, aio, persistent, common);
    OrBit(u, Reported(size, cluster, ssl, image, aio, persistent, common), StatefulSetSizeUpdated);
  }

  /** Or-ing the flags one at a time, as `Process` does, adds the same bits as `Reported`. */
  lemma StepwiseReported(u: bv32, size: bool, cluster: bool, ssl: bool, image: bool, aio: bool, persistent: bool, common: bool)
    ensures u | Bit(size, StatefulSetSizeUpdated) | Bit(cluster, StatefulSetClusterConfigUpdated) | Bit(ssl, StatefulSetSSLConfigUpdated)
      | Bit(image, StatefulSetImageUpdated) | Bit(aio, StatefulSetAioUpdated) | Bit(persistent, StatefulSetPersistentUpdated)
      | Bit(common, StatefulSetCommonConfigUpdated)
      == u | Reported(size, cluster, ssl, image, aio, persistent, common)
  {
  }
}
