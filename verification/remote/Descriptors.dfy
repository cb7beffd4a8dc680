/**
 What identifies a remote device: name, identifier and API versions; its address may change.
 */
module Descriptors {

  datatype Version = Unknown | V0 | VTest

  datatype Descriptor = NoDescriptor | Descriptor(name: string, id: string, versions: seq<Version>, url: string)

  function Id(d: Descriptor): string {
    if d.NoDescriptor? then "" else d.id
  }

  /** The same device, at whatever address. */
  predicate Equivalent(a: Descriptor, b: Descriptor) {
    (a.NoDescriptor? && b.NoDescriptor?)
    || (a.Descriptor? && b.Descriptor? && a.name == b.name && a.id == b.id && a.versions == b.versions)
  }
}
