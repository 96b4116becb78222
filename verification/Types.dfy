/** Permits, decisions and tool results exchanged by the monitor, the gateway and the log. */
module Types {
  import opened Wrappers
  import opened Values
  import opened Canonical
  import Capabilities
  import Policies

  /** The request digest is idealised as the request itself: equal digests mean equal requests. */
  datatype PermitPayload = PermitPayload(
    request: Request,
    policyVersion: string,
    capabilityId: string,
    subject: string,
    session: string,
    issuedAt: int,
    expiresAt: int,
    sequence: int,
    stateVersion: int,
    ruleId: Option<string>,
    manifest: string)

  datatype Permit = Permit(payload: PermitPayload, signature: string)

  datatype PermitFault =
    | InvalidRequest | HashMismatch | BadSignature | CapabilityMismatch | IdentityMismatch
    | PolicyVersionMismatch | ManifestMismatch | BadClock | IssuedInFuture | PermitExpired | Replayed
    | CapabilityInactive(why: Capabilities.Refusal)
    | StateChanged
    | PolicyRestricts(rule: Policies.PolicyRefusal)
    | InvariantFails(message: string)

  datatype Reason =
    | Authorized
    | NotCanonical
    | CapabilityRefused(capability: Capabilities.Refusal)
    | PolicyRefused(policy: Policies.PolicyRefusal)
    | InvariantRefused(violated: string)
    | PermitRejected(fault: PermitFault)

  datatype Decision = Decision(
    allowed: bool,
    reason: Reason,
    ruleId: Option<string>,
    permit: Option<Permit>,
    normalized: Option<Request>)

  datatype ToolResult = ToolResult(ok: bool, status: string, output: Value, stateVersion: Option<int>)

  /**
   * Python's conversions on values: `str`, and `float` and `int` on texts, where
   * `None` stands for the ValueError on a text that is no number.
   */
  datatype Builtins = Builtins(
    show: Value -> string,
    parseFloat: string -> Option<real>,
    parseInt: string -> Option<int>)

  /** `str` leaves a string as it is. */
  ghost predicate ShowsStrings(py: Builtins)
  {
    forall x {:trigger py.show(Str(x))} :: py.show(Str(x)) == x
  }
}
