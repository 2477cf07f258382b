/** The push provider, seen from the core: one multicast call per record,
    answered by an oracle. The provider's reply follows the dictionary
    `send_fcm_to_tokens` returns (`sent`, `failed`, `results`); an exception
    raised while talking to the provider is the `Raised` reply. */
module Push {

  datatype PushReply =
    | Raised(message: string)
    | Replied(sent: int, failed: int, results: seq<string>)

  /** What the provider answers to the `call`-th multicast carrying `tokens`. */
  type Provider = (nat, seq<string>) -> PushReply

  /** `send_fcm_to_tokens`: an empty token list is answered locally with
      nothing sent and nothing failed; otherwise the provider answers. */
  function SendFcm(provider: Provider, call: nat, tokens: seq<string>): (r: PushReply)
    ensures tokens == [] ==> r == Replied(0, 0, [])
    ensures tokens != [] ==> r == provider(call, tokens)
  {
    if tokens == [] then Replied(0, 0, []) else provider(call, tokens)
  }
}
