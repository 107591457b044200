/** What a model asks a client to do. */
module Calls {
  /** A call by name, with its arguments as JSON text. */
  datatype Call = Call(name: string, arguments: string)
}
