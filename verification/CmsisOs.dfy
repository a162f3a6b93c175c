/** The answers of the kernel. */
module CmsisOs {
  datatype KernelStatus = OsOk | OsErrorTimeout | OsErrorResource | OsErrorParameter
}
