/** The key under which the Agent Bus recognises a repeated send. */
module DedupeKey {
  import opened Wrappers

  const SEPARATOR: char := '\U{1F}'

  datatype EnvelopeKind = MessageKind | ControlKind

  datatype DeliveryMode = AfterTurn | Soon | Passive | Interrupt

  datatype SenderKind = AgentSender | UserSender | OwnerSender | TaskServiceSystem

  datatype SubmitMode = QueueSubmit | NextToolCall | InterruptSubmit

  /** Everything a send is made of; `payload` is the JSON text of the control payload. */
  datatype Send = Send(from: string, to: string, kind: EnvelopeKind, mode: DeliveryMode,
                       senderKind: SenderKind, display: Option<string>, submit: Option<SubmitMode>,
                       controlType: Option<string>, payload: Option<string>,
                       externalAction: Option<string>, externalMessage: Option<string>, content: string)

  function KindText(k: EnvelopeKind): string {
    match k case MessageKind => "Message" case ControlKind => "Control"
  }

  function ModeText(m: DeliveryMode): string {
    match m
    case AfterTurn => "after-turn"
    case Soon => "soon"
    case Passive => "passive"
    case Interrupt => "interrupt"
  }

  function SenderText(k: SenderKind): string {
    match k
    case AgentSender => "Agent"
    case UserSender => "User"
    case OwnerSender => "Owner"
    case TaskServiceSystem => "TaskServiceSystem"
  }

  function SubmitText(m: Option<SubmitMode>): string {
    match m
    case None => "None"
    case Some(QueueSubmit) => "Some(Queue)"
    case Some(NextToolCall) => "Some(NextToolCall)"
    case Some(InterruptSubmit) => "Some(Interrupt)"
  }

  function Text(s: Option<string>): string {
    if s.Some? then s.value else ""
  }

  /** The fields before the content, in the order they are written. */
  function Fields(s: Send): seq<string> {
    [s.from, s.to, KindText(s.kind), ModeText(s.mode), SenderText(s.senderKind), Text(s.display),
     SubmitText(s.submit), Text(s.controlType), Text(s.payload), Text(s.externalAction), Text(s.externalMessage)]
  }

  function Framed(fields: seq<string>, content: string): string {
    if fields == [] then content else fields[0] + [SEPARATOR] + Framed(fields[1..], content)
  }

  function Key(s: Send): string {
    Framed(Fields(s), s.content)
  }

  /** No field but the content contains the separator. */
  predicate Separable(s: Send) {
    && SEPARATOR !in s.from && SEPARATOR !in s.to
    && SEPARATOR !in Text(s.display) && SEPARATOR !in Text(s.controlType) && SEPARATOR !in Text(s.payload)
    && SEPARATOR !in Text(s.externalAction) && SEPARATOR !in Text(s.externalMessage)
  }

  /** The same send: every field agrees, an absent text counting as an empty one. */
  predicate SameSend(s: Send, t: Send) {
    && s.from == t.from && s.to == t.to
    && s.kind == t.kind && s.mode == t.mode && s.senderKind == t.senderKind && s.submit == t.submit
    && Text(s.display) == Text(t.display) && Text(s.controlType) == Text(t.controlType)
    && Text(s.payload) == Text(t.payload)
    && Text(s.externalAction) == Text(t.externalAction) && Text(s.externalMessage) == Text(t.externalMessage)
    && s.content == t.content
  }

  /** What precedes the first separator is determined by the text. */
  lemma SplitAtSeparator(a: string, b: string, x: string, y: string)
    requires SEPARATOR !in a && SEPARATOR !in b
    requires a + [SEPARATOR] + x == b + [SEPARATOR] + y
    ensures a == b && x == y
  {
    var s := a + [SEPARATOR] + x;
    assert s[|a|] == SEPARATOR && s[|b|] == SEPARATOR;
    assert forall i :: 0 <= i < |a| ==> s[i] == a[i];
    assert forall i :: 0 <= i < |b| ==> s[i] == b[i];
    assert |a| == |b|;
    assert a == s[..|a|] && b == s[..|b|];
    assert x == s[|a| + 1..] && y == s[|b| + 1..];
  }

  lemma {:induction false} FramedIsInjective(f: seq<string>, g: seq<string>, c: string, d: string)
    requires |f| == |g|
    requires forall i :: 0 <= i < |f| ==> SEPARATOR !in f[i] && SEPARATOR !in g[i]
    requires Framed(f, c) == Framed(g, d)
    ensures f == g && c == d
  {
    if f != [] {
      SplitAtSeparator(f[0], g[0], Framed(f[1..], c), Framed(g[1..], d));
      FramedIsInjective(f[1..], g[1..], c, d);
      assert f == [f[0]] + f[1..] && g == [g[0]] + g[1..];
    }
  }

  lemma LabelsDetermine(s: Send, t: Send)
    ensures KindText(s.kind) == KindText(t.kind) <==> s.kind == t.kind
    ensures ModeText(s.mode) == ModeText(t.mode) <==> s.mode == t.mode
    ensures SenderText(s.senderKind) == SenderText(t.senderKind) <==> s.senderKind == t.senderKind
    ensures SubmitText(s.submit) == SubmitText(t.submit) <==> s.submit == t.submit
  {
    assert "Message"[0] != "Control"[0];
    assert "after-turn"[0] != "passive"[0] && |"soon"| == 4 && |"passive"| == 7 && |"interrupt"| == 9;
    assert |"Agent"| == 5 && |"User"| == 4 && |"Owner"| == 5 && "Agent"[0] != "Owner"[0];
    assert |"None"| == 4 && |"Some(Queue)"| == 11 && |"Some(NextToolCall)"| == 18 && |"Some(Interrupt)"| == 15;
  }

  lemma LabelsHaveNoSeparator(s: Send)
    ensures SEPARATOR !in KindText(s.kind) && SEPARATOR !in ModeText(s.mode)
    ensures SEPARATOR !in SenderText(s.senderKind) && SEPARATOR !in SubmitText(s.submit)
  {}

  /** The written fields determine the send up to its content. */
  lemma FieldsDetermine(s: Send, t: Send)
    ensures Fields(s) == Fields(t) && s.content == t.content <==> SameSend(s, t)
  {
    LabelsDetermine(s, t);
    var f, g := Fields(s), Fields(t);
    assert f == g <==> && f[0] == g[0] && f[1] == g[1] && f[2] == g[2] && f[3] == g[3] && f[4] == g[4]
                       && f[5] == g[5] && f[6] == g[6] && f[7] == g[7] && f[8] == g[8] && f[9] == g[9]
                       && f[10] == g[10];
  }

  lemma FieldsHaveNoSeparator(s: Send)
    requires Separable(s)
    ensures forall i :: 0 <= i < |Fields(s)| ==> SEPARATOR !in Fields(s)[i]
  {
    LabelsHaveNoSeparator(s);
  }

  /** Two sends without separators in their fields get the same key exactly when they are the same send;
      their contents may contain anything. */
  lemma SameKeyIffSameSend(s: Send, t: Send)
    requires Separable(s) && Separable(t)
    ensures Key(s) == Key(t) <==> SameSend(s, t)
  {
    FieldsDetermine(s, t);
    FieldsHaveNoSeparator(s);
    FieldsHaveNoSeparator(t);
    KeyGivesFields(Fields(s), Fields(t), s.content, t.content);
  }

  lemma KeyGivesFields(f: seq<string>, g: seq<string>, c: string, d: string)
    requires |f| == |g|
    requires forall i :: 0 <= i < |f| ==> SEPARATOR !in f[i] && SEPARATOR !in g[i]
    ensures Framed(f, c) == Framed(g, d) <==> f == g && c == d
  {
    if Framed(f, c) == Framed(g, d) {
      FramedIsInjective(f, g, c, d);
    }
  }

  /** The condition on the sender is needed: a sender name with a separator in it always shares its key
      with a different send, one that addresses somebody else. */
  lemma SeparatorInSenderCollides(s: Send, x: string, y: string)
    requires s.from == x + [SEPARATOR] + y
    ensures var t := s.(from := x, to := y + [SEPARATOR] + s.to);
            Key(s) == Key(t) && s.to != t.to && s.from != t.from
  {
    var t := s.(from := x, to := y + [SEPARATOR] + s.to);
    var rest := Fields(s)[2..];
    assert Fields(s) == [s.from, s.to] + rest && Fields(t) == [t.from, t.to] + rest;
    TwoFields(s.from, s.to, rest, s.content);
    TwoFields(t.from, t.to, rest, s.content);
    Reassociate(x, y, s.to, Framed(rest, s.content));
    assert |t.to| > |s.to| && |t.from| < |s.from|;
  }

  lemma Reassociate(x: string, y: string, z: string, rest: string)
    ensures (x + [SEPARATOR] + y) + [SEPARATOR] + (z + [SEPARATOR] + rest)
            == x + [SEPARATOR] + ((y + [SEPARATOR] + z) + [SEPARATOR] + rest)
  {}

  lemma TwoFields(a: string, b: string, rest: seq<string>, content: string)
    ensures Framed([a, b] + rest, content) == a + [SEPARATOR] + (b + [SEPARATOR] + Framed(rest, content))
  {
    var f := [a, b] + rest;
    assert f[1..] == [b] + rest && ([b] + rest)[1..] == rest;
  }
}
