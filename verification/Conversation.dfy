/** The conversation key: which request parts it is made of, and how they are encoded. */
module Conversation {
  import opened Sequences
  import opened Requests
  import Text

  /** A message's `content`: a string, an array (each element's `text`, if it has one), or
      anything else. */
  datatype Content = Plain(text: string) | Parts(texts: seq<Option<string>>) | NoContent

  /** `role` is absent when it is not a string or the message is not an object. */
  datatype Message = Message(role: Option<string>, content: Content)

  /** The parts of a request body that matter here; absent arrays are `None`. */
  datatype Body = Body(model: string, messages: Option<seq<Message>>, input: Option<seq<Message>>)

  datatype Key = Explicit(key: string) | HeadHash(key: string)

  const MAX_EXPLICIT_KEY_LEN := 256

  // ---- extraction -------------------------------------------------------------------

  function Rename(s: string): string {
    ReplaceEach(s, NAMES)
  }

  function Segments(texts: seq<Option<string>>): seq<string> {
    if texts == [] then []
    else
      var t := Last(texts);
      Segments(Init(texts)) + (if t.Some? && t.value != "" then [Rename(t.value)] else [])
  }

  /** What one message adds to the instructions. */
  function InstructionPart(m: Message): seq<string> {
    if m.role != Some("system") then []
    else
      match m.content
      case Plain(text) => if text != "" then [Rename(text)] else []
      case Parts(texts) => if Segments(texts) != [] then [Glue(Segments(texts), "\n")] else []
      case NoContent => []
  }

  function InstructionParts(messages: seq<Message>): seq<string> {
    if messages == [] then [] else InstructionParts(Init(messages)) + InstructionPart(Last(messages))
  }

  /** `join` with a string separator. */
  function Glue(parts: seq<string>, glue: string): string {
    if parts == [] then ""
    else if |parts| == 1 then parts[0]
    else Glue(Init(parts), glue) + glue + Last(parts)
  }

  function Instructions(body: Body): string {
    if body.messages.None? then "" else Text.Trim(Glue(InstructionParts(body.messages.value), "\n\n"))
  }

  method ExtractInstructions(body: Body) returns (r: string)
    ensures r == Instructions(body)
  {
    if body.messages.None? {
      return "";
    }
    var messages := body.messages.value;
    var parts := [];
    for i := 0 to |messages|
      invariant parts == InstructionParts(messages[..i])
    {
      assert Init(messages[..i + 1]) == messages[..i];
      var m := messages[i];
      if m.role != Some("system") {
        continue;
      }
      match m.content {
        case Plain(text) =>
          if text != "" {
            parts := parts + [Rename(text)];
          }
        case Parts(texts) =>
          var segs := [];
          for j := 0 to |texts|
            invariant segs == Segments(texts[..j])
          {
            assert Init(texts[..j + 1]) == texts[..j];
            if texts[j].Some? && texts[j].value != "" {
              segs := segs + [Rename(texts[j].value)];
            }
          }
          assert texts[..|texts|] == texts;
          if segs != [] {
            parts := parts + [Glue(segs, "\n")];
          }
        case NoContent =>
      }
    }
    assert messages[..|messages|] == messages;
    r := Text.Trim(Glue(parts, "\n\n"));
  }

  predicate Visible(t: Option<string>) {
    t.Some? && Text.Trim(t.value) != ""
  }

  function FirstVisible(texts: seq<Option<string>>): Option<string> {
    if texts == [] then None else if Visible(texts[0]) then texts[0] else FirstVisible(texts[1..])
  }

  /** The first non-blank user text; `plainToo` also accepts string contents. */
  function UserText(messages: seq<Message>, plainToo: bool): Option<string> {
    if messages == [] then None
    else
      var m := messages[0];
      var here :=
        if m.role != Some("user") then None
        else match m.content
             case Plain(text) => if plainToo && Visible(Some(text)) then Some(text) else None
             case Parts(texts) => FirstVisible(texts)
             case NoContent => None;
      if here.Some? then here else UserText(messages[1..], plainToo)
  }

  /** From `input` if it has one, else from `messages`. */
  function RawUserText(body: Body): Option<string> {
    var fromInput := if body.input.Some? then UserText(body.input.value, false) else None;
    if fromInput.Some? then fromInput
    else if body.messages.Some? then UserText(body.messages.value, true)
    else None
  }

  function FirstUserText(body: Body): string {
    var t := RawUserText(body);
    if t.Some? then Rename(t.value) else ""
  }

  // ---- the key -----------------------------------------------------------------------

  function Utf8Width(c: char): nat {
    if c < '\U{80}' then 1 else if c < '\U{800}' then 2 else if c < '\U{10000}' then 3 else 4
  }

  /** `str::len`: the number of UTF-8 bytes. */
  function Utf8Len(s: string): nat {
    if s == "" then 0 else Utf8Width(s[0]) + Utf8Len(s[1..])
  }

  predicate IsControl(c: char) {
    c < '\U{20}' || '\U{7F}' <= c < '\U{A0}'
  }

  predicate ValidExplicitKey(s: string) {
    s != "" && Utf8Len(s) <= MAX_EXPLICIT_KEY_LEN && forall i :: 0 <= i < |s| ==> !IsControl(s[i])
  }

  function Digit(d: nat): char
    requires d < 10
  {
    "0123456789"[d]
  }

  function Decimal(n: nat): string {
    if n < 10 then [Digit(n)] else Decimal(n / 10) + [Digit(n % 10)]
  }

  const INSTRUCTIONS := "instructions:"
  const FIRST_USER := "\nfirst_user:"

  /** The text that is hashed for a conversation head. */
  function Payload(instructions: string, user: string): string {
    INSTRUCTIONS + (Decimal(Utf8Len(instructions)) + ":" + (instructions
    + (FIRST_USER + (Decimal(Utf8Len(user)) + ":" + user))))
  }

  /** `header` is the value of `x-conversation-id`, if it is visible text. */
  function ResolveConversationKey(header: Option<string>, body: Body, hash: string -> string): Option<Key> {
    if header.Some? && ValidExplicitKey(Text.Trim(header.value)) then Some(Explicit(Text.Trim(header.value)))
    else
      var instructions := Text.Trim(Instructions(body));
      var user := Text.Trim(FirstUserText(body));
      if instructions == "" && user == "" then None
      else Some(HeadHash(hash(Payload(instructions, user))))
  }

  // ---- the encoding is unambiguous --------------------------------------------------------

  function ValueOf(s: string): nat {
    if s == "" then 0
    else 10 * ValueOf(Init(s)) + (if '0' <= Last(s) <= '9' then (Last(s) - '0') as nat else 0)
  }

  lemma DigitReadsBack(d: nat)
    requires d < 10
    ensures '0' <= Digit(d) <= '9' && (Digit(d) - '0') as nat == d
  {
  }

  lemma {:induction false} DecimalReadsBack(n: nat)
    ensures ValueOf(Decimal(n)) == n
    ensures forall i :: 0 <= i < |Decimal(n)| ==> '0' <= Decimal(n)[i] <= '9'
  {
    hide Digit;
    DigitReadsBack(n % 10);
    if n < 10 {
      assert Init([Digit(n)]) == "";
    } else {
      DecimalReadsBack(n / 10);
      Snoc(Decimal(n / 10), Digit(n % 10));
    }
  }

  /** A text without ':' in front of a ':' can be read off unambiguously. */
  lemma {:induction false} ReadUpToColon(a: string, x: string, b: string, y: string)
    requires (forall i :: 0 <= i < |a| ==> a[i] != ':') && forall i :: 0 <= i < |b| ==> b[i] != ':'
    requires a + ":" + x == b + ":" + y
    ensures a == b && x == y
  {
    var s, t := a + ":" + x, b + ":" + y;
    assert s[|a|] == ':' && t[|b|] == ':';
    assert s[..|a|] == a && t[..|b|] == b;
    assert s[|a| + 1..] == x && t[|b| + 1..] == y;
  }

  lemma {:induction false} Utf8LenAppend(a: string, b: string)
    ensures Utf8Len(a + b) == Utf8Len(a) + Utf8Len(b)
  {
    if a == "" {
      assert a + b == b;
    } else {
      assert (a + b)[1..] == a[1..] + b;
      Utf8LenAppend(a[1..], b);
    }
  }

  lemma {:induction false} Utf8LenPositive(s: string)
    ensures Utf8Len(s) >= |s|
  {
    if s != "" {
      Utf8LenPositive(s[1..]);
    }
  }

  /** A text of known byte length at the front can be read off unambiguously. */
  lemma ReadByLength(a: string, x: string, b: string, y: string)
    requires a + x == b + y && Utf8Len(a) == Utf8Len(b)
    ensures a == b && x == y
  {
    var s := a + x;
    assert s[..|a|] == a && s[|a|..] == x && (b + y)[..|b|] == b && (b + y)[|b|..] == y;
    if |a| < |b| {
      assert b == a + b[|a|..];
      Utf8LenAppend(a, b[|a|..]);
      Utf8LenPositive(b[|a|..]);
    } else if |b| < |a| {
      assert a == b + a[|b|..];
      Utf8LenAppend(b, a[|b|..]);
      Utf8LenPositive(a[|b|..]);
    }
  }

  lemma SameFront(a: string, x: string, y: string)
    requires a + x == a + y
    ensures x == y
  {
    assert (a + x)[|a|..] == x && (a + y)[|a|..] == y;
  }

  lemma ReadLength(m: nat, x: string, n: nat, y: string)
    requires Decimal(m) + ":" + x == Decimal(n) + ":" + y
    ensures m == n && x == y
  {
    DecimalReadsBack(m);
    DecimalReadsBack(n);
    ReadUpToColon(Decimal(m), x, Decimal(n), y);
  }

  /** Distinct heads never share a pre-hash payload, whatever newlines, colons or digits the
      texts contain. */
  lemma PayloadIsInjective(i: string, u: string, j: string, w: string)
    ensures Payload(i, u) == Payload(j, w) <==> i == j && u == w
  {
    hide Decimal, Utf8Len;
    if Payload(i, u) == Payload(j, w) {
      var restI := FIRST_USER + (Decimal(Utf8Len(u)) + ":" + u);
      var restJ := FIRST_USER + (Decimal(Utf8Len(w)) + ":" + w);
      SameFront(INSTRUCTIONS, Decimal(Utf8Len(i)) + ":" + (i + restI), Decimal(Utf8Len(j)) + ":" + (j + restJ));
      ReadLength(Utf8Len(i), i + restI, Utf8Len(j), j + restJ);
      ReadByLength(i, restI, j, restJ);
      SameFront(FIRST_USER, Decimal(Utf8Len(u)) + ":" + u, Decimal(Utf8Len(w)) + ":" + w);
      ReadLength(Utf8Len(u), u, Utf8Len(w), w);
    }
  }

  /** With a collision-free hash, two head-keyed requests share a key exactly when they share
      their trimmed instructions and their trimmed first user text. */
  lemma HeadKeysAgreeIff(a: Body, b: Body, hash: string -> string)
    requires forall x, y :: hash(x) == hash(y) ==> x == y
    requires ResolveConversationKey(None, a, hash).Some? && ResolveConversationKey(None, b, hash).Some?
    ensures ResolveConversationKey(None, a, hash) == ResolveConversationKey(None, b, hash)
       <==> Text.Trim(Instructions(a)) == Text.Trim(Instructions(b))
            && Text.Trim(FirstUserText(a)) == Text.Trim(FirstUserText(b))
  {
    hide Payload, Instructions, FirstUserText, Text.Trim;
    PayloadIsInjective(Text.Trim(Instructions(a)), Text.Trim(FirstUserText(a)),
                       Text.Trim(Instructions(b)), Text.Trim(FirstUserText(b)));
  }

  // ---- the key of a growing transcript -------------------------------------------------------

  predicate NoSystem(messages: seq<Message>) {
    forall i :: 0 <= i < |messages| ==> messages[i].role != Some("system")
  }

  /** A later turn of the same transcript: only non-system messages were added, to the array the
      first user text came from. */
  predicate Continues(earlier: Body, later: Body) {
    || (&& later.input == earlier.input && earlier.messages.Some? && later.messages.Some?
        && earlier.messages.value <= later.messages.value
        && NoSystem(later.messages.value[|earlier.messages.value|..]))
    || (&& later.messages == earlier.messages && earlier.input.Some? && later.input.Some?
        && earlier.input.value <= later.input.value
        && UserText(earlier.input.value, false).Some?)
  }

  lemma {:induction false} UserTextStays(a: seq<Message>, b: seq<Message>, plainToo: bool)
    requires UserText(a, plainToo).Some?
    ensures UserText(a + b, plainToo) == UserText(a, plainToo)
  {
    assert (a + b)[0] == a[0] && (a + b)[1..] == a[1..] + b;
    if UserText(a[1..], plainToo).Some? {
      UserTextStays(a[1..], b, plainToo);
    }
  }

  lemma {:induction false} InstructionsStay(a: seq<Message>, b: seq<Message>)
    requires NoSystem(b)
    ensures InstructionParts(a + b) == InstructionParts(a)
  {
    if b == [] {
      assert a + b == a;
    } else {
      assert Init(a + b) == a + Init(b);
      InstructionsStay(a, Init(b));
    }
  }

  lemma UserTextSurvives(earlier: Body, later: Body)
    requires Continues(earlier, later) && RawUserText(earlier).Some?
    ensures RawUserText(later) == RawUserText(earlier)
  {
    hide FirstVisible, Text.Trim, NoSystem;
    if later.input == earlier.input {
      var a := if earlier.messages.Some? then earlier.messages.value else [];
      if later.messages != earlier.messages && UserText(a, true).Some? {
        assert later.messages.value == a + later.messages.value[|a|..];
        UserTextStays(a, later.messages.value[|a|..], true);
      }
    } else {
      var a := earlier.input.value;
      assert later.input.value == a + later.input.value[|a|..];
      UserTextStays(a, later.input.value[|a|..], false);
    }
  }

  lemma InstructionsSurvive(earlier: Body, later: Body)
    requires Continues(earlier, later)
    ensures Instructions(later) == Instructions(earlier)
  {
    hide UserText, InstructionParts, Text.Trim, Glue;
    if later.messages != earlier.messages {
      var a := earlier.messages.value;
      var b := later.messages.value[|a|..];
      assert later.messages.value == a + b;
      InstructionsStay(a, b);
    }
  }

  /** The key survives every later turn and every model switch once the transcript has a
      non-blank user text. */
  lemma KeyIsStable(header: Option<string>, earlier: Body, later: Body, hash: string -> string)
    requires Continues(earlier, later) && RawUserText(earlier).Some?
    ensures ResolveConversationKey(header, later, hash) == ResolveConversationKey(header, earlier, hash)
  {
    hide Continues, RawUserText, Instructions, Payload, Text.Trim, ValidExplicitKey, Rename;
    UserTextSurvives(earlier, later);
    InstructionsSurvive(earlier, later);
  }
}
