/**
 * The VMCI types the handle array is built from: 32-bit identifiers, the
 * handle (a context id and a resource id), the invalid handle sentinel and
 * the two status codes the array returns.
 */
module VmciDefs {

  /** An unsigned 32-bit integer, the width of `uint32` and `VMCIId`. */
  newtype uint32 = x: int | 0 <= x < 0x1_0000_0000

  /** `VMCI_INVALID_ID`: all 32 bits set. */
  const InvalidId: uint32 := 0xFFFF_FFFF

  /**
   * `VMCIHandle`: an endpoint identifier. The handle array never looks inside
   * a handle; `VMCI_HANDLE_EQUAL` is equality of both components, which is
   * datatype equality here.
   */
  datatype Handle = Handle(context: uint32, resource: uint32)

  /** `VMCI_INVALID_HANDLE`, the "no such entry" result. */
  const InvalidHandle: Handle := Handle(InvalidId, InvalidId)

  /** The two results of `VMCIHandleArray_AppendEntry`. */
  datatype Status = Success | ErrorNoMem
}
