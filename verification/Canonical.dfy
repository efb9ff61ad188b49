/** The texts that are hashed and signed: fields joined by newlines, from which every field can be read back.

    This is what lets the rest of the model hold digests as the structured
    content they digest. Identifiers and dates are rendered by functions given as
    parameters, of which only what UUIDs and ISO dates guarantee is used. */
module Canonical {
  import opened Schema
  import Issuance

  predicate OneLine(s: string) {
    '\n' !in s
  }

  predicate OneLines(parts: seq<string>) {
    forall i :: 0 <= i < |parts| ==> OneLine(parts[i])
  }

  /** `parts.join("\n")`. */
  function Join(parts: seq<string>): string {
    if |parts| == 0 then ""
    else if |parts| == 1 then parts[0]
    else parts[0] + "\n" + Join(parts[1..])
  }

  function FirstLine(s: string): (line: string)
    ensures line <= s && OneLine(line) && (|line| < |s| ==> s[|line|] == '\n')
  {
    if s == "" || s[0] == '\n' then "" else [s[0]] + FirstLine(s[1..])
  }

  function Split(s: string): seq<string>
    decreases |s|
  {
    var line := FirstLine(s);
    if |line| == |s| then [s] else [line] + Split(s[|line| + 1..])
  }

  lemma {:induction false} FirstLineOf(line: string, rest: string)
    requires OneLine(line)
    ensures FirstLine(line + "\n" + rest) == line
  {
    var s := line + "\n" + rest;
    if line == "" {
      assert s[0] == '\n';
    } else {
      FirstLineOf(line[1..], rest);
      assert s[1..] == line[1..] + "\n" + rest;
      assert s[0] == line[0];
    }
  }

  lemma {:induction false} LastLine(line: string)
    requires OneLine(line)
    ensures FirstLine(line) == line
  {
    if line != "" {
      LastLine(line[1..]);
    }
  }

  /** Joining loses nothing as long as no part contains a newline. */
  lemma {:induction false} SplitJoin(parts: seq<string>)
    requires |parts| > 0 && OneLines(parts)
    ensures Split(Join(parts)) == parts
    decreases |parts|
  {
    if |parts| == 1 {
      LastLine(parts[0]);
    } else {
      var rest := Join(parts[1..]);
      FirstLineOf(parts[0], rest);
      SplitJoin(parts[1..]);
      assert Join(parts)[|parts[0]| + 1..] == rest;
    }
  }

  lemma JoinInjective(a: seq<string>, b: seq<string>)
    requires |a| > 0 && |b| > 0 && OneLines(a) && OneLines(b) && Join(a) == Join(b)
    ensures a == b
  {
    SplitJoin(a);
    SplitJoin(b);
  }

  lemma {:induction false} SplitOneLines(s: string)
    ensures |Split(s)| > 0 && OneLines(Split(s))
    decreases |s|
  {
    var line := FirstLine(s);
    if |line| < |s| {
      SplitOneLines(s[|line| + 1..]);
    }
  }

  /** The fields can be read back from their joined text exactly when none of them contains a newline. */
  lemma ReadBackExactly(parts: seq<string>)
    requires |parts| > 0
    ensures Split(Join(parts)) == parts <==> OneLines(parts)
  {
    SplitOneLines(Join(parts));
    if OneLines(parts) {
      SplitJoin(parts);
    }
  }

  /** How identifiers or dates are written: on one line, not empty, and each differently. */
  ghost predicate Writes<T(!new)>(text: T -> string) {
    && (forall x :: text(x) != "" && OneLine(text(x)))
    && (forall x, y :: text(x) == text(y) ==> x == y)
  }

  // Requests.

  function ActionText(action: Action): string {
    if action == Eject then "EJECT" else "EJECT_BACK"
  }

  function RequestFields(input: Issuance.Input, text: Id -> string): seq<string> {
    ["eject-request-v1", text(input.actor), text(input.recipient), ActionText(input.action),
     if input.replyTo.Some? then text(input.replyTo.value) else ""]
  }

  /** Two requests have the same canonical text exactly when they mean the same. */
  lemma RequestTextIsMeaning(a: Issuance.Input, b: Issuance.Input, text: Id -> string)
    requires Writes(text)
    ensures Join(RequestFields(a, text)) == Join(RequestFields(b, text))
            <==> Issuance.SemanticFingerprint(a) == Issuance.SemanticFingerprint(b)
  {
    var p, q := RequestFields(a, text), RequestFields(b, text);
    if Join(p) == Join(q) {
      JoinInjective(p, q);
      assert p[1] == q[1] && p[2] == q[2] && p[3] == q[3] && p[4] == q[4];
      assert |ActionText(Eject)| != |ActionText(EjectBack)|;
    }
  }

  // Results.

  function RefusalText(code: RefusalCode): (text: string)
    ensures OneLine(text)
  {
    match code
    case InvalidCommand => "INVALID_COMMAND"
    case AudienceMismatch => "AUDIENCE_MISMATCH"
    case CommandExpired => "COMMAND_EXPIRED"
    case CommandIssuedInFuture => "COMMAND_ISSUED_IN_FUTURE"
    case CommandReplayed => "COMMAND_REPLAYED"
    case AgentPaused => "AGENT_PAUSED"
    case NoApprovedDrive => "NO_APPROVED_DRIVE"
    case CommandUnsupported => "COMMAND_UNSUPPORTED"
  }

  function AttemptText(code: AttemptCode): (text: string)
    ensures OneLine(text)
  {
    match code
    case CommandAccepted => "COMMAND_ACCEPTED"
    case DriveNotFound => "DRIVE_NOT_FOUND"
    case DriveBusy => "DRIVE_BUSY"
    case DriveNotReady => "DRIVE_NOT_READY"
    case DriveUnsupported => "DRIVE_UNSUPPORTED"
    case DriveDisconnected => "DRIVE_DISCONNECTED"
    case AccessDenied => "ACCESS_DENIED"
    case AttemptFailed => "FAILED"
  }

  lemma RefusalTextInjective(a: RefusalCode, b: RefusalCode)
    requires RefusalText(a) == RefusalText(b)
    ensures a == b
  {
    assert RefusalText(a)[0] == RefusalText(b)[0] && |RefusalText(a)| == |RefusalText(b)|;
  }

  lemma AttemptTextInjective(a: AttemptCode, b: AttemptCode)
    requires AttemptText(a) == AttemptText(b)
    ensures a == b
  {
    assert |AttemptText(a)| == |AttemptText(b)|;
    assert |AttemptText(a)| == 15 ==> AttemptText(a)[10] == AttemptText(b)[10];
  }

  function ResultFields(o: Observation, text: Id -> string, iso: Time -> string): seq<string> {
    ["eject-agent-result-v1", text(o.command), text(o.device), iso(o.recordedAt)] +
    match o
    case Refusal(_, _, _, code) => ["REJECTED", "0", RefusalText(code), "NOT_ATTEMPTED"]
    case Attempt(_, _, _, code) => ["ATTEMPTED", "1", AttemptText(code), "UNKNOWN"]
  }

  lemma ResultFieldsOneLine(o: Observation, text: Id -> string, iso: Time -> string)
    requires Writes(text) && Writes(iso)
    ensures |ResultFields(o, text, iso)| == 8 && OneLines(ResultFields(o, text, iso))
  {}

  /** Two reports have the same canonical text exactly when they are the same report. */
  lemma ResultTextIsReport(a: Observation, b: Observation, text: Id -> string, iso: Time -> string)
    requires Writes(text) && Writes(iso)
    ensures Join(ResultFields(a, text, iso)) == Join(ResultFields(b, text, iso)) <==> a == b
  {
    var p, q := ResultFields(a, text, iso), ResultFields(b, text, iso);
    if Join(p) == Join(q) {
      ResultFieldsOneLine(a, text, iso);
      ResultFieldsOneLine(b, text, iso);
      JoinInjective(p, q);
      assert p[1] == q[1] && p[2] == q[2] && p[3] == q[3] && p[4] == q[4] && p[6] == q[6];
      assert |"REJECTED"| != |"ATTEMPTED"|;
      if a.Refusal? {
        RefusalTextInjective(a.refusal, b.refusal);
      } else {
        AttemptTextInjective(a.code, b.code);
      }
    }
  }

  // Agent requests.

  /** The header fields of a signed request; the method is always POST. */
  datatype Signed = Signed(key: Id, device: Id, timestamp: Time, nonce: string, path: string, contentHash: string)

  function SignedFields(r: Signed, text: Id -> string, decimal: Time -> string): seq<string> {
    ["EJECT-DEVICE-REQUEST-V1", text(r.key), text(r.device), decimal(r.timestamp), r.nonce, "POST", r.path,
     r.contentHash]
  }

  predicate HeaderSafe(r: Signed) {
    OneLine(r.nonce) && OneLine(r.path) && OneLine(r.contentHash)
  }

  lemma SignedFieldsOneLine(r: Signed, text: Id -> string, decimal: Time -> string)
    requires Writes(text) && Writes(decimal) && HeaderSafe(r)
    ensures |SignedFields(r, text, decimal)| == 8 && OneLines(SignedFields(r, text, decimal))
  {}

  /** A signature over the canonical text fixes every field: no two different requests share one text. */
  lemma SignedTextIsRequest(a: Signed, b: Signed, text: Id -> string, decimal: Time -> string)
    requires Writes(text) && Writes(decimal) && HeaderSafe(a) && HeaderSafe(b)
    ensures Join(SignedFields(a, text, decimal)) == Join(SignedFields(b, text, decimal)) <==> a == b
  {
    var p, q := SignedFields(a, text, decimal), SignedFields(b, text, decimal);
    if Join(p) == Join(q) {
      SignedFieldsOneLine(a, text, decimal);
      SignedFieldsOneLine(b, text, decimal);
      JoinInjective(p, q);
      assert p[1] == q[1] && p[2] == q[2] && p[3] == q[3] && p[4] == q[4] && p[6] == q[6] && p[7] == q[7];
    }
  }

  /** What the nonce digest digests names the device and the nonce. */
  lemma NonceTextIsNonce(device: Id, nonce: string, device': Id, nonce': string, text: Id -> string)
    requires Writes(text) && OneLine(nonce) && OneLine(nonce')
    ensures Join([text(device), nonce]) == Join([text(device'), nonce']) <==> device == device' && nonce == nonce'
  {
    var p, q := [text(device), nonce], [text(device'), nonce'];
    if Join(p) == Join(q) {
      JoinInjective(p, q);
      assert p[0] == q[0] && p[1] == q[1];
    }
  }
}
