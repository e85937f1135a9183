/**
 * The card generator of src/gemini-service.ts: the prompt template, the
 * cleaning of the model's reply, and the mapping of the parsed JSON array
 * onto flashcards. The Gemini call and JSON.parse are parameters.
 */
module Gemini {
  import opened Wrappers
  import opened Types
  import opened Text

  // ---------------------------------------------------------------------
  // Prompt

  const PromptHead := "\nYou are an expert at creating educational flashcards from study notes. \n\nAnalyze the following note content and generate 3-5 high-quality flashcards that test key concepts, definitions, and important facts.\n\nNote filename: "
  const PromptMiddle := "\nNote content:\n"
  const PromptTail := "\n\nIMPORTANT: Please respond with ONLY a valid JSON array in the following format, with no additional text or formatting:\n\n[\n  {\n    \"question\": \"Clear, specific question about a key concept\",\n    \"answer\": \"Concise, accurate answer\",\n    \"tags\": [\"relevant\", \"topic\", \"tags\"]\n  }\n]\n\nGuidelines for flashcard creation:\n- Focus on the most important concepts and facts\n- Make questions specific and unambiguous\n- Keep answers concise but complete\n- Include relevant tags based on the content topic\n- Ensure questions test understanding, not just memorization\n- Extract key definitions, processes, and relationships\n- Make sure each flashcard stands alone and makes sense\n"

  /** The fixed instruction text with the note's filename and content substituted. */
  function CreatePrompt(note: Note): string
  {
    PromptHead + note.filename + PromptMiddle + note.content + PromptTail
  }

  /**
   * Reads the two substituted fields back out of a text built as
   * `head + field1 + middle + field2 + tail`, taking the first field to end
   * at the first line break.
   */
  function ReadTemplate(p: string, head: string, middle: string, tail: string): Option<(string, string)>
  {
    if |p| < |head| + |tail| || !StartsWith(p, head) || !EndsWith(p, tail) then None
    else
      var fields := p[|head|..|p| - |tail|];
      match IndexOf(fields, "\n")
      case None => None
      case Some(k) =>
        if StartsWith(fields[k..], middle) then Some((fields[..k], fields[k + |middle|..]))
        else None
  }

  /** Reads the filename and the content back out of a prompt. */
  function ReadPrompt(p: string): Option<(string, string)>
  {
    ReadTemplate(p, PromptHead, PromptMiddle, PromptTail)
  }

  lemma {:induction false} FirstLineBreak(f: string, rest: string)
    requires '\n' !in f
    requires rest != [] && rest[0] == '\n'
    ensures IndexOf(f + rest, "\n") == Some(|f|)
  {
    var s := f + rest;
    assert s[|f|..|f| + 1] == [rest[0]];
    assert OccursAt(s, "\n", |f|);
    forall j | 0 <= j < |f| ensures !OccursAt(s, "\n", j) {
      assert s[j..j + 1] == [f[j]];
      assert f[j] in f;
    }
  }

  lemma {:induction false} ReadTemplateRoundTrip(head: string, f: string, middle: string, c: string, tail: string)
    requires '\n' !in f
    requires middle != [] && middle[0] == '\n'
    ensures ReadTemplate(head + f + middle + c + tail, head, middle, tail) == Some((f, c))
  {
    var p := head + f + middle + c + tail;
    assert p[..|head|] == head;
    assert p[|p| - |tail|..] == tail;
    var fields := p[|head|..|p| - |tail|];
    assert fields == f + (middle + c);
    FirstLineBreak(f, middle + c);
    assert IndexOf(fields, "\n") == Some(|f|);
    assert fields[|f|..] == middle + c;
    assert fields[|f|..][..|middle|] == middle;
    assert fields[..|f|] == f;
    assert fields[|f| + |middle|..] == c;
  }

  /**
   * The prompt carries the filename and the content verbatim: for a
   * filename without a line break both can be recovered from it.
   */
  lemma PromptRoundTrip(note: Note)
    requires '\n' !in note.filename
    ensures ReadPrompt(CreatePrompt(note)) == Some((note.filename, note.content))
  {
    assert PromptMiddle[0] == '\n';
    ReadTemplateRoundTrip(PromptHead, note.filename, PromptMiddle, note.content, PromptTail);
  }

  // ---------------------------------------------------------------------
  // Reply cleaning

  const Fence := "```"
  const JsonFence := "```json"

  /** The length of the run of whitespace that starts at index `k`: what a greedy `\s*` consumes there. */
  function SpaceRun(s: string, k: nat): (n: nat)
    requires k <= |s|
    ensures k + n <= |s|
    ensures forall i :: k <= i < k + n ==> IsJsSpace(s[i])
    ensures k + n == |s| || !IsJsSpace(s[k + n])
    decreases |s| - k
  {
    if k < |s| && IsJsSpace(s[k]) then 1 + SpaceRun(s, k + 1) else 0
  }

  // `s.replace(/<marker>\s*/, '')`: removes the first occurrence of `marker`
  // and the whitespace after it.
  function RemoveMarker(s: string, marker: string): string
  {
    match IndexOf(s, marker)
    case None => s
    case Some(i) => s[..i] + s[i + |marker| + SpaceRun(s, i + |marker|)..]
  }

  /** `/```\s*$/` matches at `i`: a fence followed by nothing but whitespace. */
  predicate ClosingFenceAt(s: string, i: int)
  {
    OccursAt(s, Fence, i) && AllSpace(s[i + |Fence|..])
  }

  /** The leftmost match of `/```\s*$/` at or after `k`. */
  function ClosingFenceFrom(s: string, k: nat): (r: Option<nat>)
    requires k <= |s|
    ensures r.Some? ==> k <= r.value && ClosingFenceAt(s, r.value)
    ensures forall j :: k <= j && (r.None? || j < r.value) ==> !ClosingFenceAt(s, j)
    decreases |s| - k
  {
    if k + |Fence| > |s| then None
    else if ClosingFenceAt(s, k) then Some(k)
    else ClosingFenceFrom(s, k + 1)
  }

  /** `s.replace(/```\s*$/, '')`: removes a closing fence and the whitespace after it. */
  function RemoveClosingFence(s: string): string
  {
    match ClosingFenceFrom(s, 0)
    case None => s
    case Some(i) => s[..i]
  }

  /** The reply as JSON.parse receives it: trimmed, then the three fence replacements in order. */
  function CleanResponse(response: string): string
  {
    var trimmed := Trim(response);
    var withoutJsonFence := RemoveMarker(trimmed, JsonFence);
    var withoutClosingFence := RemoveClosingFence(withoutJsonFence);
    RemoveMarker(withoutClosingFence, Fence)
  }

  /** Cleaning starts with trim: whitespace around the reply never changes what reaches JSON.parse. */
  lemma CleanIgnoresSurroundingSpace(w0: string, response: string, w1: string)
    requires AllSpace(w0) && AllSpace(w1)
    ensures CleanResponse(w0 + response + w1) == CleanResponse(response)
  {
    TrimAbsorbsPadding(w0, response, w1);
  }

  /** A reply that is already trimmed is cleaned the same way. */
  lemma CleanTrimmed(response: string)
    ensures CleanResponse(Trim(response)) == CleanResponse(response)
  {
    TrimIdempotent(response);
  }

  lemma JsonFenceHasFence(s: string, i: int)
    requires OccursAt(s, JsonFence, i)
    ensures OccursAt(s, Fence, i)
  {
    assert s[i..i + 3] == s[i..i + 7][..3];
  }

  /** A reply whose trimmed text holds no triple backtick reaches JSON.parse exactly as trimmed. */
  lemma CleanUnfenced(response: string)
    requires !Contains(Trim(response), Fence)
    ensures CleanResponse(response) == Trim(response)
  {
    var t := Trim(response);
    if Contains(t, JsonFence) {
      var i :| 0 <= i <= |t| && OccursAt(t, JsonFence, i);
      JsonFenceHasFence(t, i);
      assert false;
    }
    assert RemoveMarker(t, JsonFence) == t;
    assert ClosingFenceFrom(t, 0).None?;
  }

  /** A marker at the very front, then whitespace, then a non-space: marker and whitespace go. */
  lemma RemoveMarkerAtFront(marker: string, w: string, rest: string)
    requires marker != []
    requires AllSpace(w)
    requires rest == [] || !IsJsSpace(rest[0])
    ensures RemoveMarker(marker + w + rest, marker) == rest
  {
    var s := marker + w + rest;
    assert s[..|marker|] == marker;
    assert OccursAt(s, marker, 0);
    assert IndexOf(s, marker) == Some(0);
    var n := SpaceRun(s, |marker|);
    assert forall i :: |marker| <= i < |marker| + |w| ==> s[i] == w[i - |marker|];
    assert |marker| + |w| == |s| || s[|marker| + |w|] == rest[0];
    assert n == |w|;
    assert s[|marker| + |w|..] == rest;
  }

  /** A fence followed only by whitespace at the end is the (unique) closing-fence match. */
  lemma RemoveClosingFenceAtEnd(x: string, w: string)
    requires AllSpace(w)
    ensures RemoveClosingFence(x + Fence + w) == x
  {
    var s := x + Fence + w;
    assert s[|x|..|x| + 3] == Fence;
    assert s[|x| + 3..] == w;
    assert ClosingFenceAt(s, |x|);
    forall j | 0 <= j < |x| ensures !ClosingFenceAt(s, j) {
      assert s[|x| + 2] == '`';
    }
    assert ClosingFenceFrom(s, 0) == Some(|x|);
    assert s[..|x|] == x;
  }

  /** Whitespace after a fence-free text cannot complete a fence. */
  lemma FenceFreeThenSpace(b: string, w: string)
    requires !Contains(b, Fence) && AllSpace(w)
    ensures !Contains(b + w, Fence)
  {
    var s := b + w;
    forall j | 0 <= j <= |s| ensures !OccursAt(s, Fence, j) {
      if j + 3 <= |b| {
        assert s[j..j + 3] == b[j..j + 3];
        assert !OccursAt(b, Fence, j);
      } else if j + 3 <= |s| {
        assert IsJsSpace(s[j + 2]) by { assert s[j + 2] == w[j + 2 - |b|]; }
        assert s[j..j + 3][2] == s[j + 2];
        assert s[j..j + 3][2] != Fence[2];
      }
    }
  }

  /** Whitespace before a fence-free text cannot start a fence. */
  lemma SpaceThenFenceFree(w: string, b: string)
    requires AllSpace(w) && !Contains(b, Fence)
    ensures !Contains(w + b, Fence)
  {
    var s := w + b;
    forall j | 0 <= j <= |s| ensures !OccursAt(s, Fence, j) {
      if j >= |w| {
        if j + 3 <= |s| {
          assert s[j..j + 3] == b[j - |w|..j - |w| + 3];
          assert !OccursAt(b, Fence, j - |w|);
        }
      } else if j + 3 <= |s| {
        assert IsJsSpace(s[j]) by { assert s[j] == w[j]; }
        assert s[j..j + 3][0] == s[j];
        assert s[j..j + 3][0] != Fence[0];
      }
    }
  }

  /** Removing an absent marker changes nothing. */
  lemma RemoveMarkerAbsent(s: string, marker: string)
    requires !Contains(s, marker)
    ensures RemoveMarker(s, marker) == s
  {
  }

  /**
   * The body of a fenced reply: it does not contain a fence, and it starts
   * with a character that is neither whitespace nor a backtick (a JSON array
   * starts with `[`).
   */
  predicate FencedBody(body: string)
  {
    && body != []
    && !IsJsSpace(body[0])
    && body[0] != '`'
    && !Contains(body, Fence)
  }

  /**
   * A reply "```json", whitespace, a body, whitespace, "```" (with any
   * whitespace around it) reaches JSON.parse as the body followed by the
   * whitespace that stood before the closing fence.
   */
  lemma CleanJsonFenced(w0: string, w1: string, body: string, w2: string, w3: string)
    requires AllSpace(w0) && AllSpace(w1) && AllSpace(w2) && AllSpace(w3)
    requires FencedBody(body)
    ensures CleanResponse(w0 + JsonFence + w1 + body + w2 + Fence + w3) == body + w2
  {
    var input := w0 + JsonFence + w1 + body + w2 + Fence + w3;
    var inner := body + w2;
    var rest := inner + Fence;
    var m := JsonFence + w1 + rest;
    assert input == w0 + m + w3;
    assert m[0] == '`' && m[|m| - 1] == '`';
    TrimPadded(w0, m, w3);
    RemoveMarkerAtFront(JsonFence, w1, rest);
    assert rest == inner + Fence + [];
    RemoveClosingFenceAtEnd(inner, []);
    FenceFreeThenSpace(body, w2);
    RemoveMarkerAbsent(inner, Fence);
  }

  /** A slice that lies inside the middle part of a concatenation is a slice of that part. */
  lemma MiddleSlice(p: string, m: string, q: string, a: int, b: int)
    requires |p| <= a <= b <= |p| + |m|
    ensures (p + m + q)[a..b] == m[a - |p|..b - |p|]
  {
    assert (p + m + q)[a..b] == (p + m)[a..b];
  }

  /** In "```", whitespace, a body, whitespace, "```" the text "```json" does not occur. */
  lemma NoJsonFenceInPlainFenced(w1: string, body: string, w2: string)
    requires AllSpace(w1) && AllSpace(w2)
    requires FencedBody(body)
    requires w1 != [] || !StartsWith(body, "json")
    ensures !Contains(Fence + w1 + body + w2 + Fence, JsonFence)
  {
    var m := w1 + (body + w2);
    var s := Fence + m + Fence;
    assert Fence + w1 + body + w2 + Fence == s;
    FenceFreeThenSpace(body, w2);
    SpaceThenFenceFree(w1, body + w2);
    forall j | 0 <= j <= |s| ensures !OccursAt(s, JsonFence, j) {
      if j + 7 <= |s| {
        var t := s[j..j + 7];
        if j == 0 {
          if w1 != [] {
            assert t[3] == w1[0];
            assert JsonFence[3] == 'j';
          } else if |body| >= 4 {
            assert t[3..] == body[..4];
            assert JsonFence[3..] == "json";
          } else {
            assert t[3 + |body|] == (w2 + Fence)[0];
            assert JsonFence[3 + |body|] == "json"[|body|];
          }
        } else if j < 3 {
          assert t[3 - j] == m[0];
          assert JsonFence[3 - j] == '`';
        } else {
          MiddleSlice(Fence, m, Fence, j, j + 3);
          assert t[..3] == s[j..j + 3];
          assert !OccursAt(m, Fence, j - 3);
          assert JsonFence[..3] == Fence;
        }
      }
    }
  }

  /**
   * A reply "```", whitespace, a body, whitespace, "```" reaches JSON.parse
   * as the body followed by the whitespace before the closing fence, unless
   * the opening fence reads "```json".
   */
  lemma CleanPlainFenced(w0: string, w1: string, body: string, w2: string, w3: string)
    requires AllSpace(w0) && AllSpace(w1) && AllSpace(w2) && AllSpace(w3)
    requires FencedBody(body)
    requires w1 != [] || !StartsWith(body, "json")
    ensures CleanResponse(w0 + Fence + w1 + body + w2 + Fence + w3) == body + w2
  {
    var m := Fence + w1 + body + w2 + Fence;
    var input := w0 + Fence + w1 + body + w2 + Fence + w3;
    assert input == w0 + m + w3;
    PlainFencedTrim(w0, m, w3);
    PlainFencedReplacements(w1, body, w2);
    CleanSteps(input, m, m, Fence + w1 + (body + w2), body + w2);
  }

  /** The three replacements on a trimmed "```" fenced reply. */
  lemma PlainFencedReplacements(w1: string, body: string, w2: string)
    requires AllSpace(w1) && AllSpace(w2)
    requires FencedBody(body)
    requires w1 != [] || !StartsWith(body, "json")
    ensures var m := Fence + w1 + body + w2 + Fence;
            && RemoveMarker(m, JsonFence) == m
            && RemoveClosingFence(m) == Fence + w1 + (body + w2)
            && RemoveMarker(Fence + w1 + (body + w2), Fence) == body + w2
  {
    var inner := body + w2;
    var front := Fence + w1 + inner;
    var m := Fence + w1 + body + w2 + Fence;
    NoJsonFenceInPlainFenced(w1, body, w2);
    RemoveMarkerAbsent(m, JsonFence);
    assert m == front + Fence + [];
    RemoveClosingFenceAtEnd(front, []);
    RemoveMarkerAtFront(Fence, w1, inner);
  }

  lemma PlainFencedTrim(w0: string, m: string, w3: string)
    requires AllSpace(w0) && AllSpace(w3)
    requires |m| >= 6 && m[..3] == Fence && m[|m| - 3..] == Fence
    ensures Trim(w0 + m + w3) == m
  {
    assert m[0] == m[..3][0];
    assert m[|m| - 1] == m[|m| - 3..][2];
    TrimPadded(w0, m, w3);
  }

  /** CleanResponse, one replacement at a time. */
  lemma CleanSteps(input: string, t: string, a: string, b: string, c: string)
    requires Trim(input) == t
    requires RemoveMarker(t, JsonFence) == a
    requires RemoveClosingFence(a) == b
    requires RemoveMarker(b, Fence) == c
    ensures CleanResponse(input) == c
  {
  }

  // ---------------------------------------------------------------------
  // From parsed JSON to flashcards

  /** Why a parsed reply yields no cards. The source re-throws all three under one message. */
  datatype ParseFault = InvalidJson | NotAnArray | NullElement(index: nat)

  const ParseFailure := "Failed to parse flashcards from API response"
  const GenerationFailure := "Failed to generate flashcards from Gemini API"

  /** The value under `key` in a parsed object; JSON.parse keeps the last of duplicate keys. */
  function Lookup(members: seq<(string, Json)>, key: string): (v: JsValue)
    ensures v.Defined? <==> exists i :: 0 <= i < |members| && members[i].0 == key
    ensures v.Defined? ==> exists i :: 0 <= i < |members| && members[i] == (key, v.value)
                                       && forall j :: i < j < |members| ==> members[j].0 != key
  {
    if members == [] then Undefined
    else if members[|members| - 1].0 == key then Defined(members[|members| - 1].1)
    else Lookup(members[..|members| - 1], key)
  }

  /** `item.key` for an array element that is not null: undefined unless it is an object holding the key. */
  function Get(item: Json, key: string): JsValue
  {
    match item
    case JObject(members) => Lookup(members, key)
    case _ => Undefined
  }

  /** `card.tags || []`. */
  function TagsOrEmpty(tags: JsValue): JsValue
  {
    if Truthy(tags) then tags else Defined(JArray([]))
  }

  /** The id template `${sourceFilename}-${index}`. */
  function CardId(filename: string, index: nat): string
  {
    filename + "-" + NatToString(index)
  }

  /**
   * The `.map((card, index) => ...)` over the array from position `start` on.
   * Reading a property of a null element throws, so a null anywhere fails
   * the whole mapping, at the first null.
   */
  function MapCards(items: seq<Json>, filename: string, start: nat): (r: Result<seq<FlashCard>, ParseFault>)
    ensures r.Success? <==> forall i :: 0 <= i < |items| ==> items[i] != JNull
    ensures r.Failure? ==> exists i :: 0 <= i < |items| && items[i] == JNull && r.error == NullElement(start + i)
                                       && forall j :: 0 <= j < i ==> items[j] != JNull
    ensures r.Success? ==>
      && |r.value| == |items|
      && forall i :: 0 <= i < |items| ==>
           && r.value[i].id == CardId(filename, start + i)
           && r.value[i].question == Get(items[i], "question")
           && r.value[i].answer == Get(items[i], "answer")
           && r.value[i].source == filename
           && r.value[i].tags == TagsOrEmpty(Get(items[i], "tags"))
  {
    if items == [] then Success([])
    else if items[0] == JNull then Failure(NullElement(start))
    else
      var card := FlashCard(CardId(filename, start), Get(items[0], "question"), Get(items[0], "answer"),
                            filename, TagsOrEmpty(Get(items[0], "tags")));
      match MapCards(items[1..], filename, start + 1)
      case Failure(fault) => Failure(fault)
      case Success(rest) => Success([card] + rest)
  }

  /** The array check and the mapping applied to the value JSON.parse returned. */
  function Decode(data: Json, filename: string): (r: Result<seq<FlashCard>, ParseFault>)
    ensures !data.JArray? ==> r == Failure(NotAnArray)
  {
    match data
    case JArray(items) => MapCards(items, filename, 0)
    case _ => Failure(NotAnArray)
  }

  /** The reason parseFlashcards throws, if it does. */
  function ParseOutcome(response: string, filename: string, jsonParse: string -> Option<Json>): Result<seq<FlashCard>, ParseFault>
  {
    match jsonParse(CleanResponse(response))
    case None => Failure(InvalidJson)
    case Some(data) => Decode(data, filename)
  }

  /**
   * parseFlashcards: clean the reply, parse it, require an array and map
   * every element to a card; any fault becomes one generic error and no cards.
   */
  function ParseFlashcards(response: string, filename: string, jsonParse: string -> Option<Json>): (r: Result<seq<FlashCard>, string>)
    ensures r.Failure? ==> r.error == ParseFailure
    ensures var parsed := jsonParse(CleanResponse(response));
            r.Success? <==> (parsed.Some? && parsed.value.JArray?
                             && forall i :: 0 <= i < |parsed.value.items| ==> parsed.value.items[i] != JNull)
    ensures var parsed := jsonParse(CleanResponse(response));
            r.Success? ==>
              var items := parsed.value.items;
              && |r.value| == |items|
              && forall i :: 0 <= i < |items| ==>
                   && r.value[i].id == CardId(filename, i)
                   && r.value[i].question == Get(items[i], "question")
                   && r.value[i].answer == Get(items[i], "answer")
                   && r.value[i].source == filename
                   && r.value[i].tags == TagsOrEmpty(Get(items[i], "tags"))
  {
    match ParseOutcome(response, filename, jsonParse)
    case Success(cards) => Success(cards)
    case Failure(_) => Failure(ParseFailure)
  }

  /** generateFlashcards: a failed call or a failed parse both surface as one generic error. */
  function GenerateFlashcards(note: Note, api: string -> Result<string, string>, jsonParse: string -> Option<Json>)
    : (r: Result<seq<FlashCard>, string>)
    ensures r.Failure? ==> r.error == GenerationFailure
    ensures r.Success? <==> (api(CreatePrompt(note)).Success?
                             && ParseFlashcards(api(CreatePrompt(note)).value, note.filename, jsonParse).Success?)
    ensures r.Success? ==> r.value == ParseFlashcards(api(CreatePrompt(note)).value, note.filename, jsonParse).value
  {
    match api(CreatePrompt(note))
    case Failure(_) => Failure(GenerationFailure)
    case Success(text) =>
      match ParseFlashcards(text, note.filename, jsonParse)
      case Success(cards) => Success(cards)
      case Failure(_) => Failure(GenerationFailure)
  }

  // ---------------------------------------------------------------------
  // Card ids

  /** Within one note the index suffix tells ids apart. */
  lemma CardIdInjective(filename: string, i: nat, j: nat)
    requires CardId(filename, i) == CardId(filename, j)
    ensures i == j
  {
    var n := |filename| + 1;
    assert CardId(filename, i)[n..] == NatToString(i);
    assert CardId(filename, j)[n..] == NatToString(j);
    NatToStringInjective(i, j);
  }

  /** The cards of one successful parse have pairwise distinct ids. */
  lemma ParsedIdsDistinct(response: string, filename: string, jsonParse: string -> Option<Json>)
    requires ParseFlashcards(response, filename, jsonParse).Success?
    ensures var cards := ParseFlashcards(response, filename, jsonParse).value;
            forall i, j :: 0 <= i < j < |cards| ==> cards[i].id != cards[j].id
  {
    var cards := ParseFlashcards(response, filename, jsonParse).value;
    forall i, j | 0 <= i < j < |cards| ensures cards[i].id != cards[j].id {
      if cards[i].id == cards[j].id {
        CardIdInjective(filename, i, j);
      }
    }
  }

  /**
   * Ids of cards from notes with different filenames never collide: the
   * text after the last '-' is all digits, so it fixes the filename. (Two
   * notes with the same filename in different folders do get equal ids.)
   */
  lemma CardIdsOfDifferentFilesDiffer(f1: string, f2: string, i: nat, j: nat)
    requires f1 != f2
    ensures CardId(f1, i) != CardId(f2, j)
  {
    var a, b := NatToString(i), NatToString(j);
    var s1, s2 := CardId(f1, i), CardId(f2, j);
    if |s1| == |s2| {
      if |a| == |b| {
        assert s1[..|f1|] == f1;
        assert s2[..|f1|] == f2;
      } else if |a| < |b| {
        assert s1[|f1|] == '-';
        assert s2[|f1|] == b[|f1| - |f2| - 1];
      } else {
        assert s2[|f2|] == '-';
        assert s1[|f2|] == a[|f2| - |f1| - 1];
      }
    }
  }

  // ---------------------------------------------------------------------
  // The two replies of the documented examples

  lemma NoBacktickNoFence(s: string)
    requires '`' !in s
    ensures !Contains(s, Fence)
  {
    forall j | 0 <= j <= |s| ensures !OccursAt(s, Fence, j) {
      if j + 3 <= |s| {
        assert s[j..j + 3][0] == s[j];
      }
    }
  }

  /** A body fenced as "```json" newline, body, newline, "```" reaches JSON.parse as the body and a newline. */
  lemma JsonFencedReply(body: string)
    requires FencedBody(body)
    ensures CleanResponse("```json\n" + body + "\n```") == body + "\n"
  {
    assert AllSpace("\n");
    assert "```json\n" + body + "\n```" == "" + JsonFence + "\n" + body + "\n" + Fence + "";
    CleanJsonFenced("", "\n", body, "\n", "");
  }

  /** A one-element array holding a question, an answer and a tag list becomes exactly one card. */
  lemma OneCardDecoded(filename: string)
    ensures Decode(JArray([JObject([("question", JString("Q")), ("answer", JString("A")), ("tags", JArray([JString("x")]))])]), filename)
            == Success([FlashCard(filename + "-0", Defined(JString("Q")), Defined(JString("A")), filename,
                                  Defined(JArray([JString("x")])))])
  {
    var members := [("question", JString("Q")), ("answer", JString("A")), ("tags", JArray([JString("x")]))];
    assert Lookup(members, "tags") == Defined(JArray([JString("x")]));
    assert members[..2][..1] == [("question", JString("Q"))];
    assert Lookup(members, "answer") == Defined(JString("A"));
    assert Lookup(members, "question") == Defined(JString("Q"));
    var items := [JObject(members)];
    assert MapCards(items[1..], filename, 1) == Success([]);
    assert NatToString(0) == "0";
    assert CardId(filename, 0) == filename + "-0";
    assert TagsOrEmpty(Defined(JArray([JString("x")]))) == Defined(JArray([JString("x")]));
    var card := FlashCard(filename + "-0", Defined(JString("Q")), Defined(JString("A")), filename,
                          Defined(JArray([JString("x")])));
    assert items[0] != JNull;
    assert MapCards(items, filename, 0) == Success([card] + []);
    assert [card] + [] == [card];
    assert Decode(JArray(items), filename) == Success([card]);
  }

  /** A fenced one-card reply yields exactly that card, with id "<filename>-0". */
  lemma OneCardReply(filename: string, jsonParse: string -> Option<Json>)
    requires jsonParse("[{\"question\":\"Q\",\"answer\":\"A\",\"tags\":[\"x\"]}]" + "\n")
             == Some(JArray([JObject([("question", JString("Q")), ("answer", JString("A")), ("tags", JArray([JString("x")]))])]))
    ensures ParseFlashcards("```json\n" + "[{\"question\":\"Q\",\"answer\":\"A\",\"tags\":[\"x\"]}]" + "\n```", filename, jsonParse)
            == Success([FlashCard(filename + "-0", Defined(JString("Q")), Defined(JString("A")), filename,
                                  Defined(JArray([JString("x")])))])
  {
    var body := "[{\"question\":\"Q\",\"answer\":\"A\",\"tags\":[\"x\"]}]";
    NoBacktickNoFence(body);
    JsonFencedReply(body);
    OneCardDecoded(filename);
  }

  /** A reply that JSON.parse rejects yields an error and no cards. */
  lemma InvalidReplyFails(filename: string, jsonParse: string -> Option<Json>)
    requires jsonParse("not json") == None
    ensures ParseFlashcards("not json", filename, jsonParse) == Failure(ParseFailure)
  {
    NoBacktickNoFence("not json");
    assert AllSpace("");
    assert "not json" == "" + "not json" + "";
    TrimPadded("", "not json", "");
    CleanUnfenced("not json");
  }
}
