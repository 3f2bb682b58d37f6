/** The file names of a driver: the library and its three companions. */
module Sonames {
  const LIBCUDA_SONAME: string := "libcuda.so.1"
  const LIBNVIDIA_NVVM_SONAME: string := "libnvidia-nvvm.so.4"
  const LIBNVIDIA_PTXJITCOMPILER_SONAME: string := "libnvidia-ptxjitcompiler.so.1"
  const LIBCUDADEBUGGER_SONAME: string := "libcudadebugger.so.1"
}
