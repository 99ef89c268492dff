/**
 * The inference client: the system preamble, the request body sent to the
 * backend, and how the reply text is read back out of its answer.
 *
 * The HTTP exchange itself is not modelled: its outcome is an `Exchange`,
 * either one of the failures the client distinguishes or the decoded JSON
 * object of the response body.
 */
module Inference {
  import opened Optional
  import opened GoStrings
  import opened Transcript
  import opened Settings

  const PreambleHeader: string := "[---] SYSTEM MESSAGE [---]\n"
  const DefinitionMarker: string := "\n[---] ROLEPLAY DEFINITION [---]\n"

  /** The content of the system message that opens every request. */
  function Preamble(system: string, definition: string): string
  {
    PreambleHeader + system + DefinitionMarker + definition
  }

  /** The request body: `prompt`, `model`, `stream` and `messages`. */
  datatype ChatRequest = ChatRequest(prompt: string, model: string, stream: bool, messages: seq<Message>)

  /** The request for the current configuration and transcript: the preamble,
      rebuilt from `cfg` on every call, as one system message in front of the
      whole transcript in its order; no prompt, no streaming, the configured model. */
  function BuildRequest(cfg: Config, history: seq<Message>): (r: ChatRequest)
    ensures r.prompt == "" && !r.stream && r.model == cfg.model
    ensures |r.messages| == |history| + 1 && r.messages[1..] == history
    ensures r.messages[0] == Message(System, Preamble(cfg.system, cfg.definition))
  {
    ChatRequest("", cfg.model, false, [Message(System, Preamble(cfg.system, cfg.definition))] + history)
  }

  /** The system message of every request carries the system prompt and the
      definition configured at the time of the call, and they can be read back. */
  lemma RequestCarriesCurrentConfig(cfg: Config, history: seq<Message>)
    requires MarkerFree(cfg.system)
    ensures var first := BuildRequest(cfg, history).messages[0];
      first.role == System && ParsePreamble(first.content) == Some((cfg.system, cfg.definition))
  {
    ParsePreambleInverse(cfg.system, cfg.definition);
  }

  /** When the transcript holds no system message (the chat loop never stores
      one), the preamble is the only system message of the request. */
  lemma {:induction false} PreambleIsOnlySystemMessage(cfg: Config, history: seq<Message>)
    requires OfRole(history, System) == []
    ensures OfRole(BuildRequest(cfg, history).messages, System)
         == [Message(System, Preamble(cfg.system, cfg.definition))]
  {
    var m := Message(System, Preamble(cfg.system, cfg.definition));
    assert BuildRequest(cfg, history).messages == [m] + history;
    OfRoleAppend([m], history, System);
    assert OfRole([m], System) == [m] by {
      assert [m][1..] == [];
    }
  }

  /** The first position at or after `i` where `pat` occurs in `s`. */
  function IndexFrom(s: string, pat: string, i: nat): (r: Option<nat>)
    ensures r.Some? ==> i <= r.value && OccursAt(s, pat, r.value)
                        && forall j :: i <= j < r.value ==> !OccursAt(s, pat, j)
    ensures r.None? ==> forall j :: i <= j ==> !OccursAt(s, pat, j)
    decreases |s| - i
  {
    if i + |pat| > |s| then None
    else if s[i..i + |pat|] == pat then Some(i)
    else IndexFrom(s, pat, i + 1)
  }

  /** Reads the system prompt and the definition back out of a preamble:
      everything up to the first marker after the header, and everything after it. */
  function ParsePreamble(p: string): (r: Option<(string, string)>)
    ensures r.Some? ==> Preamble(r.value.0, r.value.1) == p
  {
    if !(PreambleHeader <= p) then None
    else
      match IndexFrom(p, DefinitionMarker, |PreambleHeader|)
      case None => None
      case Some(k) =>
        var system := p[|PreambleHeader|..k];
        var definition := p[k + |DefinitionMarker|..];
        assert p == PreambleHeader + system + DefinitionMarker + definition by {
          assert p[..|PreambleHeader|] == PreambleHeader;
          assert p[k..k + |DefinitionMarker|] == DefinitionMarker;
          Reassemble(p, |PreambleHeader|, k, k + |DefinitionMarker|);
        }
        Some((system, definition))
  }

  /** A string is the concatenation of its four pieces cut at `i`, `j` and `l`. */
  lemma Reassemble(p: string, i: nat, j: nat, l: nat)
    requires i <= j <= l <= |p|
    ensures p == p[..i] + p[i..j] + p[j..l] + p[l..]
  {
    assert p[..j] == p[..i] + p[i..j];
    assert p[..l] == p[..j] + p[j..l];
    assert p == p[..l] + p[l..];
  }

  /** The marker does not start anywhere inside the system prompt (it may
      still occur inside the definition). */
  predicate MarkerFree(system: string)
  {
    forall i :: 0 <= i < |system| ==> !OccursAt(system + DefinitionMarker, DefinitionMarker, i)
  }

  /** A system prompt without `[` cannot hold the start of the marker. */
  lemma MarkerFreeWithoutBracket(system: string)
    requires '[' !in system
    ensures MarkerFree(system)
  {
    forall i | 0 <= i < |system|
      ensures !OccursAt(system + DefinitionMarker, DefinitionMarker, i)
    {
      var t := system + DefinitionMarker;
      assert t[i + 1] != '[';
      assert DefinitionMarker[1] == '[';
      assert i + |DefinitionMarker| <= |t| ==> t[i..i + |DefinitionMarker|][1] == t[i + 1];
    }
  }

  /** Every preamble parses (possibly splitting at a marker inside the system prompt). */
  lemma ParsePreambleComplete(system: string, definition: string)
    ensures ParsePreamble(Preamble(system, definition)).Some?
  {
    var p := Preamble(system, definition);
    var k := |PreambleHeader| + |system|;
    assert PreambleHeader <= p;
    assert p[k..k + |DefinitionMarker|] == DefinitionMarker;
    assert OccursAt(p, DefinitionMarker, k);
  }

  /** Parsing a preamble gives back the system prompt and definition it was
      built from, provided the system prompt does not hide the marker. */
  lemma ParsePreambleInverse(system: string, definition: string)
    requires MarkerFree(system)
    ensures ParsePreamble(Preamble(system, definition)) == Some((system, definition))
  {
    var p := Preamble(system, definition);
    var h := |PreambleHeader|;
    var k := h + |system|;
    assert PreambleHeader <= p;
    assert p[k..k + |DefinitionMarker|] == DefinitionMarker;
    assert OccursAt(p, DefinitionMarker, k);
    forall j | h <= j < k
      ensures !OccursAt(p, DefinitionMarker, j)
    {
      var t := system + DefinitionMarker;
      assert !OccursAt(t, DefinitionMarker, j - h);
      assert p[j..j + |DefinitionMarker|] == t[j - h..j - h + |DefinitionMarker|];
    }
    assert IndexFrom(p, DefinitionMarker, h) == Some(k);
    assert p[h..k] == system;
    assert p[k + |DefinitionMarker|..] == definition;
  }

  /** The proviso is also necessary: when parsing gives back the system prompt
      and definition, the system prompt does not hide the marker. */
  lemma ParsePreambleOnlyIfMarkerFree(system: string, definition: string)
    requires ParsePreamble(Preamble(system, definition)) == Some((system, definition))
    ensures MarkerFree(system)
  {
    var p := Preamble(system, definition);
    var h := |PreambleHeader|;
    assert PreambleHeader <= p;
    var k := IndexFrom(p, DefinitionMarker, h).value;
    assert p[h..k] == system;
    forall i | 0 <= i < |system|
      ensures !OccursAt(system + DefinitionMarker, DefinitionMarker, i)
    {
      if OccursAt(system + DefinitionMarker, DefinitionMarker, i) {
        MarkerInSystemPrompt(system, definition, i);
        assert false;
      }
    }
  }

  /** A marker starting inside the system prompt starts at the same place,
      shifted by the header, in the preamble. */
  lemma MarkerInSystemPrompt(system: string, definition: string, i: nat)
    requires OccursAt(system + DefinitionMarker, DefinitionMarker, i)
    ensures OccursAt(Preamble(system, definition), DefinitionMarker, |PreambleHeader| + i)
  {
    var t := system + DefinitionMarker;
    var p := Preamble(system, definition);
    var h := |PreambleHeader|;
    assert p == PreambleHeader + t + definition;
    assert p[h + i..h + i + |DefinitionMarker|] == t[i..i + |DefinitionMarker|];
  }

  /** Parsing gives back the system prompt and definition exactly when the
      system prompt does not hide the marker. */
  lemma ParsePreambleRoundTrip(system: string, definition: string)
    ensures ParsePreamble(Preamble(system, definition)) == Some((system, definition))
        <==> MarkerFree(system)
  {
    if MarkerFree(system) {
      ParsePreambleInverse(system, definition);
    }
    if ParsePreamble(Preamble(system, definition)) == Some((system, definition)) {
      ParsePreambleOnlyIfMarkerFree(system, definition);
    }
  }

  /** Without that proviso two configurations can send the same preamble. */
  lemma PreambleAmbiguous()
    ensures Preamble(DefinitionMarker, "") == Preamble("", DefinitionMarker)
    ensures ParsePreamble(Preamble(DefinitionMarker, "")) == Some(("", DefinitionMarker))
  {
    ParsePreambleInverse("", DefinitionMarker);
  }

  /** A decoded JSON value, as far as the client looks into it. */
  datatype Json = JObject(fields: map<string, Json>) | JString(text: string) | JOther

  /** How one round trip with the backend ended: a failure at one of the five
      steps (encoding the body, building the HTTP request, sending it, reading
      the answer, decoding it), each with the error's text, or the decoded
      top-level object of the answer. */
  datatype Exchange =
    | EncodeFailed(detail: string)
    | RequestFailed(detail: string)
    | SendFailed(detail: string)
    | ReadFailed(detail: string)
    | DecodeFailed(detail: string)
    | Decoded(response: map<string, Json>)

  /** The `message` entry of a response, when it is an object. */
  function MessageObject(response: map<string, Json>): Option<map<string, Json>>
  {
    if "message" in response && response["message"].JObject? then Some(response["message"].fields)
    else None
  }

  /** The reply text the client shows and records for an exchange: the
      `message.content` string when there is one, a fixed placeholder when the
      answer has another shape, and the error text, prefixed by the step that
      failed, otherwise. Every exchange yields a reply. */
  function ReplyText(x: Exchange): (r: string)
    ensures x.EncodeFailed? ==> r == "Error preparing request: " + x.detail
    ensures x.RequestFailed? ==> r == "Request error: " + x.detail
    ensures x.SendFailed? ==> r == "Response error: " + x.detail
    ensures x.ReadFailed? ==> r == "Error reading response: " + x.detail
    ensures x.DecodeFailed? ==> r == "Error decoding response: " + x.detail
    ensures x.Decoded? && MessageObject(x.response).None? ==> r == "Unexpected response format"
    ensures x.Decoded? && MessageObject(x.response).Some? ==>
              var m := MessageObject(x.response).value;
              if "content" in m && m["content"].JString? then r == m["content"].text
              else r == "No content received"
  {
    match x
    case EncodeFailed(e) => "Error preparing request: " + e
    case RequestFailed(e) => "Request error: " + e
    case SendFailed(e) => "Response error: " + e
    case ReadFailed(e) => "Error reading response: " + e
    case DecodeFailed(e) => "Error decoding response: " + e
    case Decoded(response) =>
      match MessageObject(response)
      case None => "Unexpected response format"
      case Some(m) =>
        if "content" in m && m["content"].JString? then m["content"].text
        else "No content received"
  }

  /** A well-formed answer `{"message": {"content": c, ...}, ...}` yields `c`,
      whatever other keys either object carries. */
  lemma ReplyOfWellFormedAnswer(response: map<string, Json>, message: map<string, Json>, content: string)
    requires message["content" := JString(content)] == message
    ensures ReplyText(Decoded(response["message" := JObject(message)])) == content
  {
    assert "content" in message;
  }
}
