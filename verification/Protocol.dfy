/** Names shared by the protocol's components (`codex-rs/app-server-protocol/src/jsonrpc_lite.rs`). */
module Protocol {

  /** `"1"` and `1` are different ids. */
  datatype RequestId = StringId(s: string) | IntId(i: int)
}
