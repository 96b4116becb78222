/** The hash-chained, signed evidence log, its checkpoint and its verifier. */
module Evidence {
  import opened Wrappers
  import opened Canonical
  import opened Types

  const GENESIS: string := Zeros(64)
  const CHECKPOINT_VERSION: string := "1"
  const BUNDLE_FORMAT: string := "guardian-evidence-bundle-v1"

  datatype EventPayload = EventPayload(
    sequence: int,
    timestamp: int,
    session: string,
    subject: string,
    requested: Request,
    normalized: Option<Request>,
    allowed: bool,
    reason: Reason,
    ruleId: Option<string>,
    policyVersion: string,
    capabilityId: string,
    manifest: string,
    resultDigest: string,
    previousHash: string)

  datatype Event = Event(payload: EventPayload, hash: string, signature: string)

  datatype CheckpointBody = CheckpointBody(
    version: string, count: int, terminal: string, policyVersion: string, manifest: string)

  datatype Checkpoint = Checkpoint(body: CheckpointBody, signature: string)

  datatype Bundle = Bundle(format: string, events: seq<Event>, checkpoint: Checkpoint)

  function Zeros(n: nat): (s: string)
    ensures |s| == n && forall i | 0 <= i < n :: s[i] == '0'
  {
    if n == 0 then "" else "0" + Zeros(n - 1)
  }

  /** Digest and signature operations of one key pair. */
  datatype Crypto = Crypto(
    eventHash: EventPayload -> string,
    resultHash: ToolResult -> string,
    signEvent: (EventPayload, string) -> string,
    validEvent: (EventPayload, string, string) -> bool,
    signCheckpoint: CheckpointBody -> string,
    validCheckpoint: (CheckpointBody, string) -> bool)

  predicate IsDigest(s: string)
  {
    |s| == 64 && forall i | 0 <= i < 64 :: '0' <= s[i] <= '9' || 'a' <= s[i] <= 'f'
  }

  /** Digests are 64 hex digits. */
  ghost predicate Digests(c: Crypto)
  {
    && (forall p :: IsDigest(c.eventHash(p)))
    && (forall r :: IsDigest(c.resultHash(r)))
  }

  /** No event of `a` has the digest of a different event of `b`. */
  ghost predicate CollisionFree(c: Crypto, a: seq<Event>, b: seq<Event>)
  {
    forall i, j | 0 <= i < |a| && 0 <= j < |b| ::
      c.eventHash(a[i].payload) == c.eventHash(b[j].payload) ==> a[i].payload == b[j].payload
  }

  // ---------------------------------------------------------------- appending

  function Terminal(events: seq<Event>): string
  {
    if events == [] then GENESIS else events[|events|-1].hash
  }

  /** What one append adds after `events`. */
  function NextEvent(c: Crypto, manifest: string, events: seq<Event>, timestamp: int, request: Request,
                     decision: Decision, policyVersion: string, result: Option<ToolResult>): Event
  {
    var payload := EventPayload(
      |events| + 1, timestamp, request.session, request.subject, request, decision.normalized,
      decision.allowed, decision.reason, decision.ruleId, policyVersion, request.capabilityId, manifest,
      if result.Some? then c.resultHash(result.value) else "", Terminal(events));
    Event(payload, c.eventHash(payload), c.signEvent(payload, c.eventHash(payload)))
  }

  function CheckpointOf(manifest: string, events: seq<Event>, policyVersion: string): CheckpointBody
  {
    CheckpointBody(CHECKPOINT_VERSION, |events|, Terminal(events), policyVersion, manifest)
  }

  function ExportBundle(c: Crypto, manifest: string, events: seq<Event>, policyVersion: string): Bundle
  {
    var body := CheckpointOf(manifest, events, policyVersion);
    Bundle(BUNDLE_FORMAT, events, Checkpoint(body, c.signCheckpoint(body)))
  }

  /** The event at `i` follows the one before it. */
  ghost predicate Chained(c: Crypto, events: seq<Event>, i: nat)
    requires i < |events|
  {
    var e := events[i];
    && e.payload.sequence == i + 1
    && e.payload.previousHash == Terminal(events[..i])
    && e.hash == c.eventHash(e.payload)
  }

  /** A log that only appends have built, all under one manifest. */
  ghost predicate IsLog(c: Crypto, manifest: string, events: seq<Event>)
  {
    forall i: nat {:trigger events[i]} | i < |events| ::
      && Chained(c, events, i)
      && events[i].payload.manifest == manifest
      && events[i].signature == c.signEvent(events[i].payload, events[i].hash)
      && (events[i].payload.resultDigest == "" || exists r :: events[i].payload.resultDigest == c.resultHash(r))
  }

  lemma AppendKeepsLog(c: Crypto, manifest: string, events: seq<Event>, timestamp: int, request: Request,
                       decision: Decision, policyVersion: string, result: Option<ToolResult>)
    requires IsLog(c, manifest, events)
    ensures IsLog(c, manifest,
      events + [NextEvent(c, manifest, events, timestamp, request, decision, policyVersion, result)])
  {
    var e := NextEvent(c, manifest, events, timestamp, request, decision, policyVersion, result);
    var more := events + [e];
    forall i: nat | i < |more|
      ensures Chained(c, more, i)
    {
      if i < |events| {
        assert Chained(c, events, i) && more[i] == events[i];
        assert more[..i] == events[..i];
      } else {
        assert more[..i] == events;
      }
    }
    forall i: nat | i < |events| ensures more[i] == events[i] {}
  }

  class EvidenceLog {
    const crypto: Crypto
    const manifest: string
    var events: seq<Event>

    constructor (crypto: Crypto, manifest: string)
      ensures this.crypto == crypto && this.manifest == manifest && events == []
    {
      this.crypto := crypto;
      this.manifest := manifest;
      events := [];
    }

    ghost predicate Valid()
      reads this
    {
      IsLog(crypto, manifest, events)
    }

    method Append(timestamp: int, request: Request, decision: Decision, policyVersion: string,
                  result: Option<ToolResult>)
      returns (event: Event)
      modifies this`events
      ensures event == NextEvent(crypto, manifest, old(events), timestamp, request, decision, policyVersion, result)
      ensures events == old(events) + [event]
      ensures old(Valid()) ==> Valid()
    {
      var previousHash := GENESIS;
      if |events| > 0 {
        previousHash := events[|events|-1].hash;
      }
      var digest := "";
      if result.Some? {
        digest := crypto.resultHash(result.value);
      }
      var payload := EventPayload(
        |events| + 1, timestamp, request.session, request.subject, request, decision.normalized,
        decision.allowed, decision.reason, decision.ruleId, policyVersion, request.capabilityId, manifest,
        digest, previousHash);
      var hash := crypto.eventHash(payload);
      event := Event(payload, hash, crypto.signEvent(payload, hash));
      if Valid() {
        AppendKeepsLog(crypto, manifest, events, timestamp, request, decision, policyVersion, result);
      }
      events := events + [event];
    }

    method Export(policyVersion: string) returns (bundle: Bundle)
      ensures bundle == ExportBundle(crypto, manifest, events, policyVersion)
    {
      var body := CheckpointBody(CHECKPOINT_VERSION, |events|, Terminal(events), policyVersion, manifest);
      bundle := Bundle(BUNDLE_FORMAT, events, Checkpoint(body, crypto.signCheckpoint(body)));
    }
  }

  // ---------------------------------------------------------------- verifying

  datatype Fault =
    | Malformed | SequenceMismatch | BrokenChain | ReplayedEvent | PolicyVersionDiffers | ManifestDiffers
    | EventHashMismatch | EventSignatureInvalid
    | UnsupportedFormat | MalformedCheckpoint | UnsupportedCheckpoint | CheckpointSignatureInvalid
    | CheckpointPolicyDiffers | CheckpointManifestDiffers | CountMismatch | TerminalMismatch

  predicate SchemaOk(e: Event)
  {
    && e.payload.sequence >= 1
    && IsDigest(e.hash) && IsDigest(e.payload.previousHash) && IsDigest(e.payload.manifest)
    && (e.payload.resultDigest == "" || IsDigest(e.payload.resultDigest))
  }

  predicate Expected(expected: Option<string>, actual: string)
  {
    expected.Some? ==> actual == expected.value
  }

  /** One turn of the verifier's loop. */
  function CheckEvent(c: Crypto, e: Event, sequence: int, previousHash: string, seen: set<string>,
                      policyVersion: Option<string>, manifest: Option<string>): Option<Fault>
  {
    if !SchemaOk(e) then Some(Malformed)
    else if e.payload.sequence != sequence then Some(SequenceMismatch)
    else if e.payload.previousHash != previousHash then Some(BrokenChain)
    else if e.hash in seen then Some(ReplayedEvent)
    else if !Expected(policyVersion, e.payload.policyVersion) then Some(PolicyVersionDiffers)
    else if !Expected(manifest, e.payload.manifest) then Some(ManifestDiffers)
    else if c.eventHash(e.payload) != e.hash then Some(EventHashMismatch)
    else if !c.validEvent(e.payload, e.hash, e.signature) then Some(EventSignatureInvalid)
    else None
  }

  function Hashes(events: seq<Event>): set<string>
  {
    set i | 0 <= i < |events| :: events[i].hash
  }

  lemma InHashes(events: seq<Event>, n: nat, hash: string)
    requires n <= |events|
    ensures hash in Hashes(events[..n]) <==> exists i :: 0 <= i < n && events[i].hash == hash
  {
    if hash in Hashes(events[..n]) {
      var i :| 0 <= i < n && events[..n][i].hash == hash;
      assert events[i].hash == hash;
    }
    if i :| 0 <= i < n && events[i].hash == hash {
      assert events[..n][i].hash == hash;
    }
  }

  lemma HashesExtend(events: seq<Event>, n: nat)
    requires n < |events|
    ensures Hashes(events[..n+1]) == Hashes(events[..n]) + {events[n].hash}
  {
    assert events[..n+1] == events[..n] + [events[n]];
    forall h ensures h in Hashes(events[..n+1]) <==> h in Hashes(events[..n]) + {events[n].hash} {
      InHashes(events, n, h);
      InHashes(events, n + 1, h);
    }
  }

  /** `verify_events` on the first `n` events. */
  function VerifyPrefix(c: Crypto, events: seq<Event>, n: nat,
                        policyVersion: Option<string>, manifest: Option<string>): Option<Fault>
    requires n <= |events|
  {
    if n == 0 then None
    else
      match VerifyPrefix(c, events, n - 1, policyVersion, manifest)
      case Some(fault) => Some(fault)
      case None =>
        CheckEvent(c, events[n-1], n, Terminal(events[..n-1]), Hashes(events[..n-1]), policyVersion, manifest)
  }

  function VerifyEvents(c: Crypto, events: seq<Event>,
                        policyVersion: Option<string>, manifest: Option<string>): Option<Fault>
  {
    VerifyPrefix(c, events, |events|, policyVersion, manifest)
  }

  lemma {:induction false} FirstFaultStays(c: Crypto, events: seq<Event>, n: nat, m: nat,
                                           policyVersion: Option<string>, manifest: Option<string>)
    requires n <= m <= |events| && VerifyPrefix(c, events, n, policyVersion, manifest).Some?
    ensures VerifyPrefix(c, events, m, policyVersion, manifest) == VerifyPrefix(c, events, n, policyVersion, manifest)
    decreases m
  {
    if n < m { FirstFaultStays(c, events, n, m - 1, policyVersion, manifest); }
  }

  /** The loop of `verify_events`: chain, replay set and expected sequence updated event by event. */
  method Verify(c: Crypto, events: seq<Event>, policyVersion: Option<string>, manifest: Option<string>)
    returns (fault: Option<Fault>)
    ensures fault == VerifyEvents(c, events, policyVersion, manifest)
  {
    var previousHash := GENESIS;
    var seen: set<string> := {};
    var expectedSequence := 1;
    for i := 0 to |events|
      invariant previousHash == Terminal(events[..i])
      invariant seen == Hashes(events[..i])
      invariant expectedSequence == i + 1
      invariant VerifyPrefix(c, events, i, policyVersion, manifest).None?
    {
      fault := CheckEvent(c, events[i], expectedSequence, previousHash, seen, policyVersion, manifest);
      if fault.Some? {
        FirstFaultStays(c, events, i + 1, |events|, policyVersion, manifest);
        return;
      }
      HashesExtend(events, i);
      previousHash := events[i].hash;
      seen := seen + {events[i].hash};
      expectedSequence := expectedSequence + 1;
      assert Terminal(events[..i+1]) == events[i].hash;
    }
    fault := None;
  }

  predicate CheckpointSchemaOk(body: CheckpointBody)
  {
    body.count >= 0 && IsDigest(body.terminal) && IsDigest(body.manifest)
  }

  /** `verify_evidence_bundle` */
  function VerifyBundle(c: Crypto, b: Bundle, policyVersion: Option<string>, manifest: Option<string>): Option<Fault>
  {
    if b.format != BUNDLE_FORMAT then Some(UnsupportedFormat)
    else if !CheckpointSchemaOk(b.checkpoint.body) then Some(MalformedCheckpoint)
    else if b.checkpoint.body.version != CHECKPOINT_VERSION then Some(UnsupportedCheckpoint)
    else if !c.validCheckpoint(b.checkpoint.body, b.checkpoint.signature) then Some(CheckpointSignatureInvalid)
    else if !Expected(policyVersion, b.checkpoint.body.policyVersion) then Some(CheckpointPolicyDiffers)
    else if !Expected(manifest, b.checkpoint.body.manifest) then Some(CheckpointManifestDiffers)
    else
      match VerifyEvents(c, b.events, Some(b.checkpoint.body.policyVersion), Some(b.checkpoint.body.manifest))
      case Some(fault) => Some(fault)
      case None =>
        if b.checkpoint.body.count != |b.events| then Some(CountMismatch)
        else if b.checkpoint.body.terminal != Terminal(b.events) then Some(TerminalMismatch)
        else None
  }

  // ------------------------------------------------------------------ meaning

  /** Everything the verifier asks of the event at `i`, apart from the replay set. */
  ghost predicate Sound(c: Crypto, events: seq<Event>, i: nat, policyVersion: Option<string>, manifest: Option<string>)
    requires i < |events|
  {
    var e := events[i];
    && Chained(c, events, i) && SchemaOk(e)
    && Expected(policyVersion, e.payload.policyVersion) && Expected(manifest, e.payload.manifest)
    && c.validEvent(e.payload, e.hash, e.signature)
  }

  ghost predicate HashesDistinct(events: seq<Event>, n: nat)
    requires n <= |events|
  {
    forall i, j | 0 <= i < j < n :: events[i].hash != events[j].hash
  }

  lemma CheckEventMeaning(c: Crypto, events: seq<Event>, n: nat, policyVersion: Option<string>,
                          manifest: Option<string>)
    requires n < |events|
    ensures
      var seen := Hashes(events[..n]);
      CheckEvent(c, events[n], n + 1, Terminal(events[..n]), seen, policyVersion, manifest).None? <==>
      && Sound(c, events, n, policyVersion, manifest)
      && !exists i :: 0 <= i < n && events[i].hash == events[n].hash
  {
    InHashes(events, n, events[n].hash);
  }

  lemma {:induction false} VerifyPrefixMeaning(c: Crypto, events: seq<Event>, n: nat,
                                               policyVersion: Option<string>, manifest: Option<string>)
    requires n <= |events|
    ensures VerifyPrefix(c, events, n, policyVersion, manifest).None? <==>
      && (forall i: nat | i < n :: Sound(c, events, i, policyVersion, manifest))
      && HashesDistinct(events, n)
  {
    hide CheckEvent, Sound, Hashes, Terminal;
    if n > 0 {
      VerifyPrefixMeaning(c, events, n - 1, policyVersion, manifest);
      CheckEventMeaning(c, events, n - 1, policyVersion, manifest);
    }
  }

  /** Unless two of its events collide, the replay set rejects nothing the chain has not already excluded. */
  lemma ReplayNeverFires(c: Crypto, events: seq<Event>, policyVersion: Option<string>, manifest: Option<string>)
    requires CollisionFree(c, events, events)
    ensures VerifyEvents(c, events, policyVersion, manifest).None? <==>
      forall i: nat | i < |events| :: Sound(c, events, i, policyVersion, manifest)
  {
    VerifyPrefixMeaning(c, events, |events|, policyVersion, manifest);
    if forall i: nat | i < |events| :: Sound(c, events, i, policyVersion, manifest) {
      forall i: nat, j: nat | i < j < |events| ensures events[i].hash != events[j].hash {
        assert Sound(c, events, i, policyVersion, manifest) && Sound(c, events, j, policyVersion, manifest);
      }
    }
  }

  /** The same events, whatever their signatures. */
  ghost predicate SameContent(a: seq<Event>, b: seq<Event>)
  {
    |a| == |b| && forall i | 0 <= i < |a| :: a[i].payload == b[i].payload && a[i].hash == b[i].hash
  }

  /** Binding: the terminal hash of an accepted chain fixes every event before it. */
  lemma {:induction false} TerminalBinds(c: Crypto, a: seq<Event>, b: seq<Event>, i: nat)
    requires CollisionFree(c, a, b) && |a| == |b| && i <= |a|
    requires forall k: nat | k < |a| :: Chained(c, a, k) && Chained(c, b, k)
    requires Terminal(a[..i]) == Terminal(b[..i])
    ensures SameContent(a[..i], b[..i])
  {
    if i > 0 {
      assert Chained(c, a, i - 1) && Chained(c, b, i - 1);
      assert a[..i][i-1] == a[i-1] && b[..i][i-1] == b[i-1];
      TerminalBinds(c, a, b, i - 1);
      forall k | 0 <= k < i ensures a[..i][k].payload == b[..i][k].payload && a[..i][k].hash == b[..i][k].hash {
        if k < i - 1 {
          assert a[..i-1][k] == a[k] && b[..i-1][k] == b[k];
        }
      }
    }
  }

  /**
   * Two accepted lists with the same terminal hash agree in everything but the
   * signatures, unless one is empty and the other ends in a digest equal to the
   * genesis constant.
   */
  lemma AcceptedTerminalBinds(c: Crypto, a: seq<Event>, b: seq<Event>,
                              pa: Option<string>, ma: Option<string>, pb: Option<string>, mb: Option<string>)
    requires CollisionFree(c, a, b)
    requires VerifyEvents(c, a, pa, ma).None? && VerifyEvents(c, b, pb, mb).None?
    requires Terminal(a) == Terminal(b)
    ensures SameContent(a, b) || (a == []) != (b == [])
  {
    VerifyPrefixMeaning(c, a, |a|, pa, ma);
    VerifyPrefixMeaning(c, b, |b|, pb, mb);
    if a != [] && b != [] {
      assert Sound(c, a, |a| - 1, pa, ma) && Sound(c, b, |b| - 1, pb, mb);
      assert a[|a|-1].payload == b[|b|-1].payload;
      assert |a| == |b|;
      forall k: nat | k < |a| ensures Chained(c, a, k) && Chained(c, b, k) {
        assert Sound(c, a, k, pa, ma) && Sound(c, b, k, pb, mb);
      }
      assert a[..|a|] == a && b[..|b|] == b;
      TerminalBinds(c, a, b, |a|);
    }
  }

  /** What the key has signed verifies: this log's events and the checkpoints of its prefixes. */
  ghost predicate SignsLog(c: Crypto, manifest: string, log: seq<Event>)
  {
    && (forall i | 0 <= i < |log| :: c.validEvent(log[i].payload, log[i].hash, log[i].signature))
    && (forall n: nat, v: string {:trigger CheckpointOf(manifest, log[..n], v)} | n <= |log| ::
          c.validCheckpoint(CheckpointOf(manifest, log[..n], v), c.signCheckpoint(CheckpointOf(manifest, log[..n], v))))
  }

  /** Nothing else verifies. */
  ghost predicate Unforgeable(c: Crypto, manifest: string, log: seq<Event>)
  {
    && (forall p, h, s :: c.validEvent(p, h, s) ==>
          exists i | 0 <= i < |log| :: log[i].payload == p && log[i].hash == h)
    && (forall b, s :: c.validCheckpoint(b, s) ==>
          exists n: nat | n <= |log| :: b == CheckpointOf(manifest, log[..n], b.policyVersion))
  }

  /** One key for this one log: validity is what it has signed. */
  ghost predicate ServesLog(c: Crypto, manifest: string, log: seq<Event>)
  {
    Digests(c) && SignsLog(c, manifest, log) && Unforgeable(c, manifest, log)
  }

  /** The same signer, verified by a memory of what it has signed for this log. */
  ghost function Remembering(c: Crypto, manifest: string, log: seq<Event>): Crypto
  {
    c.(
      validEvent := (p, h, s) => exists i | 0 <= i < |log| :: log[i] == Event(p, h, s),
      validCheckpoint := (b, s) =>
        s == c.signCheckpoint(b) &&
        exists n: nat | n <= |log| :: b == CheckpointOf(manifest, log[..n], b.policyVersion))
  }

  /** Such a key exists for every log. */
  lemma RememberingServes(c: Crypto, manifest: string, log: seq<Event>)
    requires Digests(c)
    ensures ServesLog(Remembering(c, manifest, log), manifest, log)
  {
    var key := Remembering(c, manifest, log);
    forall i | 0 <= i < |log| ensures key.validEvent(log[i].payload, log[i].hash, log[i].signature) {
      assert log[i] == Event(log[i].payload, log[i].hash, log[i].signature);
    }
  }

  /** A verified event is the log's event at its own position. */
  lemma EventComesFromLog(c: Crypto, manifest: string, log: seq<Event>, events: seq<Event>, i: nat,
                          policyVersion: Option<string>, expectedManifest: Option<string>)
    requires IsLog(c, manifest, log) && Unforgeable(c, manifest, log) && i < |events|
    requires Sound(c, events, i, policyVersion, expectedManifest)
    ensures i < |log| && events[i].payload == log[i].payload && events[i].hash == log[i].hash
  {
    var e := events[i];
    assert c.validEvent(e.payload, e.hash, e.signature);
    var j :| 0 <= j < |log| && log[j].payload == e.payload && log[j].hash == e.hash;
    assert Chained(c, log, j);
  }

  lemma EventsComeFromLog(c: Crypto, manifest: string, log: seq<Event>, events: seq<Event>,
                          policyVersion: Option<string>, expectedManifest: Option<string>)
    requires IsLog(c, manifest, log) && Unforgeable(c, manifest, log)
    requires VerifyEvents(c, events, policyVersion, expectedManifest).None?
    ensures |events| <= |log| && SameContent(events, log[..|events|])
  {
    VerifyPrefixMeaning(c, events, |events|, policyVersion, expectedManifest);
    forall i: nat | i < |events|
      ensures i < |log| && events[i].payload == log[i].payload && events[i].hash == log[i].hash
    {
      EventComesFromLog(c, manifest, log, events, i, policyVersion, expectedManifest);
    }
  }

  lemma CheckpointComesFromLog(c: Crypto, manifest: string, log: seq<Event>, k: Checkpoint)
    requires Unforgeable(c, manifest, log) && c.validCheckpoint(k.body, k.signature)
    requires 0 <= k.body.count
    ensures k.body.count <= |log|
    ensures k.body == CheckpointOf(manifest, log[..k.body.count], k.body.policyVersion)
  {
    var n: nat :| n <= |log| && k.body == CheckpointOf(manifest, log[..n], k.body.policyVersion);
  }

  /** An accepted bundle is a historical snapshot of the one log the key serves. */
  lemma AcceptedBundleIsSnapshot(c: Crypto, manifest: string, log: seq<Event>, b: Bundle,
                                 policyVersion: Option<string>, expectedManifest: Option<string>)
    requires IsLog(c, manifest, log) && Unforgeable(c, manifest, log)
    requires VerifyBundle(c, b, policyVersion, expectedManifest).None?
    ensures |b.events| <= |log| && SameContent(b.events, log[..|b.events|])
    ensures b.checkpoint.body == CheckpointOf(manifest, log[..|b.events|], b.checkpoint.body.policyVersion)
  {
    hide IsLog, Unforgeable, VerifyEvents, SameContent;
    CheckpointComesFromLog(c, manifest, log, b.checkpoint);
    EventsComeFromLog(c, manifest, log, b.events,
                      Some(b.checkpoint.body.policyVersion), Some(b.checkpoint.body.manifest));
  }

  /** Every event carries the given policy version. */
  ghost predicate OneVersion(events: seq<Event>, policyVersion: string)
  {
    forall i | 0 <= i < |events| :: events[i].payload.policyVersion == policyVersion
  }

  lemma LogIsSound(c: Crypto, manifest: string, log: seq<Event>, policyVersion: string, i: nat)
    requires Digests(c) && SignsLog(c, manifest, log) && IsDigest(manifest)
    requires IsLog(c, manifest, log) && OneVersion(log, policyVersion)
    requires i < |log|
    ensures Sound(c, log, i, Some(policyVersion), Some(manifest))
  {
    assert Chained(c, log, i);
    if i > 0 { assert Chained(c, log, i - 1) && log[..i][i-1] == log[i-1]; }
  }

  /** The exported bundle of any log is accepted. */
  lemma ExportVerifies(c: Crypto, manifest: string, log: seq<Event>, policyVersion: string)
    requires Digests(c) && SignsLog(c, manifest, log) && IsDigest(manifest)
    requires IsLog(c, manifest, log) && OneVersion(log, policyVersion)
    requires CollisionFree(c, log, log)
    ensures VerifyBundle(c, ExportBundle(c, manifest, log, policyVersion), Some(policyVersion), Some(manifest)).None?
  {
    hide IsLog, Sound, OneVersion, CollisionFree, VerifyEvents;
    ReplayNeverFires(c, log, Some(policyVersion), Some(manifest));
    forall i: nat | i < |log| ensures Sound(c, log, i, Some(policyVersion), Some(manifest)) {
      LogIsSound(c, manifest, log, policyVersion, i);
    }
    TerminalIsDigest(c, manifest, log);
    assert log[..|log|] == log;
    assert c.validCheckpoint(CheckpointOf(manifest, log[..|log|], policyVersion),
                             c.signCheckpoint(CheckpointOf(manifest, log[..|log|], policyVersion)));
  }

  lemma TerminalIsDigest(c: Crypto, manifest: string, log: seq<Event>)
    requires Digests(c) && IsLog(c, manifest, log)
    ensures IsDigest(Terminal(log))
  {
    if log != [] { assert Chained(c, log, |log| - 1); }
  }

  lemma SelectedInPlace(c: Crypto, manifest: string, log: seq<Event>, events: seq<Event>, i: nat,
                        policyVersion: Option<string>, expectedManifest: Option<string>)
    requires IsLog(c, manifest, log) && i < |events| && events[i] in log
    requires Sound(c, events, i, policyVersion, expectedManifest)
    ensures i < |log| && events[i] == log[i]
  {
    var j :| 0 <= j < |log| && log[j] == events[i];
    assert Chained(c, log, j);
  }

  /** A selection of the log's events that passes under the log's own checkpoint is the log. */
  lemma AcceptedSelectionIsLog(c: Crypto, manifest: string, log: seq<Event>, policyVersion: string, events: seq<Event>)
    requires IsLog(c, manifest, log)
    requires forall i | 0 <= i < |events| :: events[i] in log
    requires VerifyBundle(c, ExportBundle(c, manifest, log, policyVersion).(events := events),
                          Some(policyVersion), Some(manifest)).None?
    ensures events == log
  {
    hide IsDigest, CheckEvent, IsLog, Sound, Terminal;
    VerifyPrefixMeaning(c, events, |events|, Some(policyVersion), Some(manifest));
    forall i: nat | i < |events| ensures i < |log| && events[i] == log[i] {
      SelectedInPlace(c, manifest, log, events, i, Some(policyVersion), Some(manifest));
    }
  }

  /**
   * Export then verify: the exported bundle of any log is accepted, and no other
   * selection of its events, dropped, reordered or repeated, is accepted under
   * the same checkpoint.
   */
  lemma OnlyTheExportVerifies(c: Crypto, manifest: string, log: seq<Event>, policyVersion: string, events: seq<Event>)
    requires Digests(c) && SignsLog(c, manifest, log) && IsDigest(manifest)
    requires IsLog(c, manifest, log) && OneVersion(log, policyVersion)
    requires CollisionFree(c, log, log)
    requires forall i | 0 <= i < |events| :: events[i] in log
    ensures var b := ExportBundle(c, manifest, log, policyVersion).(events := events);
      VerifyBundle(c, b, Some(policyVersion), Some(manifest)).None? <==> events == log
  {
    hide Digests, IsLog, OneVersion, CollisionFree, VerifyBundle;
    ExportVerifies(c, manifest, log, policyVersion);
    var whole := ExportBundle(c, manifest, log, policyVersion);
    assert whole.(events := log) == whole;
    if VerifyBundle(c, whole.(events := events), Some(policyVersion), Some(manifest)).None? {
      AcceptedSelectionIsLog(c, manifest, log, policyVersion, events);
    }
  }

  /** Every signature in the bundle is the one the key would give. */
  ghost predicate Genuine(c: Crypto, b: Bundle)
  {
    && b.checkpoint.signature == c.signCheckpoint(b.checkpoint.body)
    && forall i | 0 <= i < |b.events| :: b.events[i].signature == c.signEvent(b.events[i].payload, b.events[i].hash)
  }

  lemma PrefixIsLog(c: Crypto, manifest: string, log: seq<Event>, policyVersion: string, n: nat)
    requires IsLog(c, manifest, log) && OneVersion(log, policyVersion) && n <= |log|
    ensures IsLog(c, manifest, log[..n]) && OneVersion(log[..n], policyVersion)
  {
    forall i: nat | i < n ensures Chained(c, log[..n], i) {
      assert Chained(c, log, i);
      assert log[..n][..i] == log[..i];
    }
  }

  lemma PrefixIsSigned(c: Crypto, manifest: string, log: seq<Event>, n: nat)
    requires SignsLog(c, manifest, log) && n <= |log|
    ensures SignsLog(c, manifest, log[..n])
  {
    forall m: nat, v: string | m <= n
      ensures var body := CheckpointOf(manifest, log[..n][..m], v); c.validCheckpoint(body, c.signCheckpoint(body))
    {
      assert log[..n][..m] == log[..m];
    }
  }

  /** The export of any prefix of the log is accepted. */
  lemma PrefixExportVerifies(c: Crypto, manifest: string, log: seq<Event>, policyVersion: string, n: nat)
    requires Digests(c) && SignsLog(c, manifest, log) && IsDigest(manifest)
    requires IsLog(c, manifest, log) && OneVersion(log, policyVersion) && CollisionFree(c, log, log)
    requires n <= |log|
    ensures var prefix := ExportBundle(c, manifest, log[..n], policyVersion);
      VerifyBundle(c, prefix, Some(policyVersion), Some(manifest)).None?
  {
    hide Digests, SignsLog, IsLog, OneVersion, VerifyBundle;
    PrefixIsLog(c, manifest, log, policyVersion, n);
    PrefixIsSigned(c, manifest, log, n);
    ExportVerifies(c, manifest, log[..n], policyVersion);
  }

  /** A genuine bundle that is accepted is the export of the log's prefix of its own length. */
  lemma AcceptedBundleIsExport(c: Crypto, manifest: string, log: seq<Event>, policyVersion: string, b: Bundle)
    requires IsLog(c, manifest, log) && Unforgeable(c, manifest, log) && Genuine(c, b)
    requires VerifyBundle(c, b, Some(policyVersion), Some(manifest)).None?
    ensures |b.events| <= |log| && b == ExportBundle(c, manifest, log[..|b.events|], policyVersion)
  {
    AcceptedBundleIsSnapshot(c, manifest, log, b, Some(policyVersion), Some(manifest));
    hide Unforgeable, VerifyEvents;
    var n := |b.events|;
    forall i | 0 <= i < n ensures b.events[i] == log[..n][i] {
      assert log[i].signature == c.signEvent(log[i].payload, log[i].hash);
    }
    assert b.events == log[..n];
  }

  /**
   * Completeness and soundness for one key: a genuine bundle is accepted if and
   * only if it is the export of some prefix of the one log the key serves.
   */
  lemma AcceptedIffExported(c: Crypto, manifest: string, log: seq<Event>, policyVersion: string, b: Bundle)
    requires ServesLog(c, manifest, log) && IsDigest(manifest)
    requires IsLog(c, manifest, log) && OneVersion(log, policyVersion) && CollisionFree(c, log, log)
    requires Genuine(c, b)
    ensures
      VerifyBundle(c, b, Some(policyVersion), Some(manifest)).None? <==>
      exists n: nat | n <= |log| :: b == ExportBundle(c, manifest, log[..n], policyVersion)
  {
    hide IsLog, Digests, SignsLog, Unforgeable, OneVersion, CollisionFree, Genuine, VerifyBundle, ExportBundle;
    if VerifyBundle(c, b, Some(policyVersion), Some(manifest)).None? {
      AcceptedBundleIsExport(c, manifest, log, policyVersion, b);
    }
    if n: nat :| n <= |log| && b == ExportBundle(c, manifest, log[..n], policyVersion) {
      PrefixExportVerifies(c, manifest, log, policyVersion, n);
    }
  }
}
