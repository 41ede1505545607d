/** What identifies a conversation: when the client's own key counts, and which texts of the request
    make up the head otherwise. */
module ConversationHead {
  import opened Sequences
  import opened Requests
  import opened Conversation
  import Text

  // ---- the explicit key ----------------------------------------------------------------

  /** Text without control characters. */
  predicate Printable(s: string) {
    forall i :: 0 <= i < |s| ==> (' ' <= s[i] && s[i] != '\U{7F}' && !('\U{80}' <= s[i] <= '\U{9F}'))
  }

  /** The trimmed header is the key exactly if it is not empty, takes at most 256 bytes and holds no
      control characters; with any other header the request is keyed as if it had none. */
  lemma ExplicitKeyIff(a: string, key: string, b: string, body: Body, hash: string -> string)
    requires Text.AllWhitespace(a) && Text.AllWhitespace(b)
    requires key != "" ==> !Text.IsWhitespace(key[0]) && !Text.IsWhitespace(Last(key))
    ensures var k := ResolveConversationKey(Some(a + key + b), body, hash);
            if key != "" && Utf8Len(key) <= 256 && Printable(key) then k == Some(Explicit(key))
            else k == ResolveConversationKey(None, body, hash) && k != Some(Explicit(key))
  {
    Text.TrimUnpads(a, key, b);
    ValidMeans(key);
    hide *;
    KeyOrHead(Some(a + key + b), body, hash);
  }

  lemma ValidMeans(key: string)
    ensures ValidExplicitKey(key) <==> key != "" && Utf8Len(key) <= 256 && Printable(key)
  {
    hide Utf8Len;
    forall i | 0 <= i < |key|
      ensures IsControl(key[i]) <==> !(' ' <= key[i] && key[i] != '\U{7F}' && !('\U{80}' <= key[i] <= '\U{9F}'))
    {
    }
  }

  lemma KeyOrHead(header: Option<string>, body: Body, hash: string -> string)
    requires header.Some?
    ensures var k, head := ResolveConversationKey(header, body, hash), ResolveConversationKey(None, body, hash);
            && (head.Some? ==> head.value.HeadHash?)
            && var trimmed := Text.Trim(header.value);
               if ValidExplicitKey(trimmed) then k == Some(Explicit(trimmed)) else k == head
  {
    hide Text.Trim, ValidExplicitKey, Payload, Instructions, FirstUserText;
  }

  // ---- the first user text ---------------------------------------------------------------

  /** The user says `t` in the message, as string content where that counts, or in a part. */
  predicate Says(m: Message, plainToo: bool, t: string) {
    && m.role == Some("user") && Text.Trim(t) != ""
    && match m.content
       case Plain(text) => plainToo && text == t
       case Parts(texts) => Some(t) in texts
       case NoContent => false
  }

  /** `t` is the first thing said in the message. */
  ghost predicate SaysFirst(m: Message, plainToo: bool, t: string) {
    && Says(m, plainToo, t)
    && (m.content.Parts? ==>
          var texts := m.content.texts;
          exists k :: 0 <= k < |texts| && texts[k] == Some(t)
                      && forall l :: 0 <= l < k && texts[l].Some? ==> Text.Trim(texts[l].value) == "")
  }

  ghost predicate Silent(messages: seq<Message>, plainToo: bool) {
    forall i, u :: 0 <= i < |messages| ==> !Says(messages[i], plainToo, u)
  }

  ghost predicate SaysAt(messages: seq<Message>, plainToo: bool, t: string, i: nat) {
    i < |messages| && SaysFirst(messages[i], plainToo, t) && Silent(messages[..i], plainToo)
  }

  lemma {:induction false} FirstVisibleIsFirst(texts: seq<Option<string>>) returns (k: nat)
    ensures FirstVisible(texts).None? ==> forall t :: Some(t) in texts ==> Text.Trim(t) == ""
    ensures FirstVisible(texts).Some? ==>
              && k < |texts| && FirstVisible(texts) == texts[k] && Text.Trim(texts[k].value) != ""
              && forall l :: 0 <= l < k && texts[l].Some? ==> Text.Trim(texts[l].value) == ""
  {
    hide Text.Trim;
    k := 0;
    if texts != [] && !Visible(texts[0]) {
      var j := FirstVisibleIsFirst(texts[1..]);
      k := j + 1;
    }
  }

  /** The text taken is the first one a user says that is not blank; there is none exactly if no user
      says anything. */
  lemma {:induction false} UserTextIsFirst(messages: seq<Message>, plainToo: bool)
    ensures match UserText(messages, plainToo)
            case None => Silent(messages, plainToo)
            case Some(t) => exists i: nat :: SaysAt(messages, plainToo, t, i)
  {
    hide UserText, SaysAt, SaysFirst, Says;
    if messages == [] {
      NothingSaid(plainToo);
    } else {
      var m, rest := messages[0], messages[1..];
      assert messages == [m] + rest;
      OneMessage(m, plainToo);
      UserTextIsFirst(rest, plainToo);
      if UserText([m], plainToo).Some? {
        UserTextStays([m], rest, plainToo);
        SaidHere(m, rest, plainToo, UserText([m], plainToo).value);
      } else {
        UserTextGoesOn(m, rest, plainToo);
        if UserText(rest, plainToo).Some? {
          var i: nat :| SaysAt(rest, plainToo, UserText(rest, plainToo).value, i);
          SaidLater(m, rest, plainToo, UserText(rest, plainToo).value, i);
        }
      }
    }
  }

  lemma SaidHere(m: Message, rest: seq<Message>, plainToo: bool, t: string)
    requires SaysFirst(m, plainToo, t)
    ensures SaysAt([m] + rest, plainToo, t, 0)
  {
    hide SaysFirst, Says;
  }

  lemma SaidLater(m: Message, rest: seq<Message>, plainToo: bool, t: string, i: nat)
    requires SaysAt(rest, plainToo, t, i) && forall u :: !Says(m, plainToo, u)
    ensures SaysAt([m] + rest, plainToo, t, i + 1)
  {
    hide SaysFirst, Says;
    assert ([m] + rest)[..i + 1] == [m] + rest[..i];
  }

  lemma UserTextGoesOn(m: Message, rest: seq<Message>, plainToo: bool)
    requires UserText([m], plainToo).None?
    ensures UserText([m] + rest, plainToo) == UserText(rest, plainToo)
  {
    hide FirstVisible, Visible;
    assert [m][1..] == [] && ([m] + rest)[1..] == rest;
  }

  lemma OneMessage(m: Message, plainToo: bool)
    ensures UserText([m], plainToo).Some? ==> SaysFirst(m, plainToo, UserText([m], plainToo).value)
    ensures UserText([m], plainToo).None? ==> forall u :: !Says(m, plainToo, u)
  {
    hide Text.Trim, FirstVisible;
    assert [m][1..] == [] && UserText([m][1..], plainToo).None?;
    hide UserText;
    var here := UserText([m], plainToo);
    HereIs(m, plainToo);
    if m.content.Parts? {
      var _ := FirstVisibleIsFirst(m.content.texts);
    }
  }

  lemma HereIs(m: Message, plainToo: bool)
    ensures UserText([m], plainToo)
         == if m.role != Some("user") then None
            else match m.content
                 case Plain(text) => if plainToo && Visible(Some(text)) then Some(text) else None
                 case Parts(texts) => FirstVisible(texts)
                 case NoContent => None
  {
    hide FirstVisible, Visible;
    assert [m][1..] == [];
  }

  /** `input` comes first, where only parts count; without a text there the messages are asked. */
  lemma InputComesFirst(body: Body)
    ensures match RawUserText(body)
            case None => Silent(body.input.GetOr([]), false) && Silent(body.messages.GetOr([]), true)
            case Some(t) =>
              if Silent(body.input.GetOr([]), false) then exists i: nat :: SaysAt(body.messages.GetOr([]), true, t, i)
              else exists i: nat :: SaysAt(body.input.GetOr([]), false, t, i)
  {
    hide Says, UserText;
    UserTextIsFirst(body.input.GetOr([]), false);
    UserTextIsFirst(body.messages.GetOr([]), true);
    NothingSaid(false);
    NothingSaid(true);
  }

  lemma NothingSaid(plainToo: bool)
    ensures UserText([], plainToo).None?
  {
  }

  // ---- the instructions ---------------------------------------------------------------------

  /** The parts' texts that are not empty. */
  function TextsOf(parts: seq<Option<string>>): seq<string> {
    if parts == [] then []
    else TextsOf(Init(parts)) + (if Last(parts).GetOr("") == "" then [] else [Last(parts).value])
  }

  lemma {:induction false} SegmentsAreRenamed(parts: seq<Option<string>>)
    ensures Segments(parts) == Map(s => ReplaceEach(s, NAMES), TextsOf(parts))
  {
    hide ReplaceEach;
    if parts != [] {
      SegmentsAreRenamed(Init(parts));
      if Last(parts).GetOr("") != "" {
        Snoc(TextsOf(Init(parts)), Last(parts).value);
      }
    }
  }

  lemma {:induction false} PartsAppend(a: seq<Message>, b: seq<Message>)
    ensures InstructionParts(a + b) == InstructionParts(a) + InstructionParts(b)
  {
    if b == [] {
      assert a + b == a;
    } else {
      hide InstructionPart;
      assert Init(a + b) == a + Init(b);
      PartsAppend(a, Init(b));
      Associative(InstructionParts(a), InstructionParts(Init(b)), InstructionPart(Last(b)));
    }
  }

  /** A message adds to the instructions what the system says in it: its text, or the texts of its
      parts one per line, with the names replaced; all other messages add nothing. */
  lemma MessageContributes(a: seq<Message>, m: Message, b: seq<Message>)
    ensures var texts := if m.role != Some("system") || m.content.NoContent? then []
                         else if m.content.Parts? then TextsOf(m.content.texts)
                         else if m.content.text == "" then [] else [m.content.text];
            var renamed := Map(s => ReplaceEach(s, NAMES), texts);
            InstructionParts(a + [m] + b)
            == InstructionParts(a) + (if texts == [] then [] else [Glue(renamed, "\n")]) + InstructionParts(b)
  {
    hide ReplaceEach, Segments, TextsOf;
    PartsAppend(a + [m], b);
    PartsAppend(a, [m]);
    assert Init([m]) == [] && [] + InstructionPart(m) == InstructionPart(m);
    if m.role == Some("system") && m.content.Parts? {
      SegmentsAreRenamed(m.content.texts);
    } else if m.role == Some("system") && m.content.Plain? {
      assert Map(s => ReplaceEach(s, NAMES), [m.content.text]) == [Rename(m.content.text)];
    }
  }

  // ---- no listed name is left -----------------------------------------------------------------

  ghost predicate Clean(s: string) {
    forall n :: n in NAMES ==> !Occurs(n, s)
  }

  lemma CrossingMeetsGlue(name: string, a: string, glue: string, b: string, i: nat)
    requires OccursAt(name, a + glue + b, i) && name != "" && glue != ""
    ensures |a| < i + |name| && i < |a| + |glue| ==> exists j :: 0 <= j < |name| && name[j] in glue
  {
    if |a| < i + |name| && i < |a| + |glue| {
      var s, j := a + glue + b, if i < |a| then |a| - i else 0;
      assert name[j] == s[i..i + |name|][j] == s[i + j] == glue[i + j - |a|];
    }
  }

  /** An occurrence of a name without line breaks does not cross a line break. */
  lemma OccursOnOneSide(name: string, a: string, glue: string, b: string)
    requires name != "" && glue != "" && (forall i :: 0 <= i < |name| ==> name[i] != '\n')
    requires (forall i :: 0 <= i < |glue| ==> glue[i] == '\n') && Occurs(name, a + glue + b)
    ensures Occurs(name, a) || Occurs(name, b)
  {
    var s := a + glue + b;
    var i: nat :| OccursAt(name, s, i);
    CrossingMeetsGlue(name, a, glue, b, i);
    if i + |name| <= |a| {
      assert a[i..i + |name|] == s[i..i + |name|];
      assert OccursAt(name, a, i);
    } else if i >= |a| + |glue| {
      var k: nat := i - |a| - |glue|;
      assert b[k..k + |name|] == s[i..i + |name|];
      assert OccursAt(name, b, k);
    }
  }

  lemma NamesAreLines()
    ensures forall n :: n in NAMES ==> n != "" && forall i :: 0 <= i < |n| ==> n[i] != '\n'
  {
  }

  lemma GluedIsClean(a: string, glue: string, b: string)
    requires Clean(a) && Clean(b) && glue != "" && forall i :: 0 <= i < |glue| ==> glue[i] == '\n'
    ensures Clean(a + glue + b)
  {
    hide Occurs;
    NamesAreLines();
    forall n | n in NAMES
      ensures !Occurs(n, a + glue + b)
    {
      if Occurs(n, a + glue + b) {
        OccursOnOneSide(n, a, glue, b);
      }
    }
  }

  lemma {:induction false} GlueIsClean(parts: seq<string>, glue: string)
    requires (forall p :: p in parts ==> Clean(p)) && glue != "" && forall i :: 0 <= i < |glue| ==> glue[i] == '\n'
    ensures Clean(Glue(parts, glue))
  {
    hide Clean;
    if parts == [] {
      EmptyIsClean();
    } else if |parts| > 1 {
      assert Last(parts) in parts && forall p :: p in Init(parts) ==> p in parts;
      GlueIsClean(Init(parts), glue);
      GluedIsClean(Glue(Init(parts), glue), glue, Last(parts));
    }
  }

  lemma EmptyIsClean()
    ensures Clean("")
  {
    NamesAreLines();
  }

  /** A stretch of a clean text is clean. */
  lemma MiddleIsClean(a: string, middle: string, b: string)
    requires Clean(a + middle + b)
    ensures Clean(middle)
  {
    var s := a + middle + b;
    forall n | n in NAMES
      ensures !Occurs(n, middle)
    {
      if Occurs(n, middle) {
        var i: nat :| OccursAt(n, middle, i);
        assert s[|a| + i..|a| + i + |n|] == middle[i..i + |n|];
        assert OccursAt(n, s, |a| + i);
      }
    }
  }

  lemma RenamedIsClean(s: string)
    ensures Clean(Rename(s))
  {
    forall n | n in NAMES
      ensures !Occurs(n, Rename(s))
    {
      NamesAreListed(n);
      ReplaceNamesIsComplete(s, n);
    }
  }

  lemma {:induction false} SegmentsAreClean(parts: seq<Option<string>>)
    ensures forall p :: p in Segments(parts) ==> Clean(p)
  {
    if parts != [] {
      hide Clean, Rename;
      SegmentsAreClean(Init(parts));
      RenamedIsClean(Last(parts).GetOr(""));
    }
  }

  lemma {:induction false} PartsAreClean(messages: seq<Message>)
    ensures forall p :: p in InstructionParts(messages) ==> Clean(p)
  {
    if messages != [] {
      hide Clean, Rename, Segments, Glue;
      PartsAreClean(Init(messages));
      PartIsClean(Last(messages));
    }
  }

  lemma PartIsClean(m: Message)
    ensures forall p :: p in InstructionPart(m) ==> Clean(p)
  {
    hide Clean, Rename, Segments, Glue;
    if m.content.Plain? {
      RenamedIsClean(m.content.text);
    } else if m.content.Parts? {
      SegmentsAreClean(m.content.texts);
      GlueIsClean(Segments(m.content.texts), "\n");
    }
  }

  /** No listed name is left in what identifies a conversation: joining the texts makes none, nor
      does trimming. */
  lemma HeadHasNoNames(body: Body)
    ensures Clean(Instructions(body)) && Clean(FirstUserText(body))
  {
    hide Clean, Rename, InstructionParts, Glue, RawUserText, Text.Trim;
    EmptyIsClean();
    if RawUserText(body).Some? {
      RenamedIsClean(RawUserText(body).value);
    }
    if body.messages.Some? {
      PartsAreClean(body.messages.value);
      var whole := Glue(InstructionParts(body.messages.value), "\n\n");
      GlueIsClean(InstructionParts(body.messages.value), "\n\n");
      var a, b := Text.TrimIsTheMiddle(whole);
      MiddleIsClean(a, Text.Trim(whole), b);
    }
  }
}
