/** Paths are opaque to this model: no operation of the records inspects them. */
module Paths {
  type Path = string
}
