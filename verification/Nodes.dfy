/** Where traffic starts and ends and where network functions run. */
module Nodes {
  /** A server, or a switch with what it says about itself. */
  datatype Node = ServerNode(id: int) | SwitchNode(id: int, programmable: bool, gateway: bool)
}
