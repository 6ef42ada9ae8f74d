/** Descriptors, which the kernel numbers and every part of the server passes on. */
module Descriptor {

  type Fd = nat
}
