/**
 What the agent sees of a ping: the text of a failure (`src/hooks/ping.rs:60-69`), and the parts a ping is inserted as
 (`src/transform.rs:296-355`).
 */
module PingLaws {
  import opened Wrappers
  import opened Json
  import opened Pings
  import opened Injection
  import opened Texts

  // ---------- the text of a failure ----------

  /** The pieces of a failure's text: name and id of the hook's ping, its message, the fix if there is one. */
  function FailurePieces(hook: string, id: string, message: string, fix: Option<string>): seq<string> {
    ["<ashkelon-ping hook=\"", hook, "\" id=\"", id, "\">\n", message, "\n"]
    + (match fix case Some(f) => ["fix: ", f, "\n"] case None => [])
    + ["</ashkelon-ping>"]
  }

  lemma JoinsThree(text: string, pieces: seq<string>, a: string, b: string, c: string)
    requires Joins(text, pieces, "")
    ensures Joins(text + a + b + c, pieces + [a, b, c], "")
  {
    JoinsNext(text, pieces, a);
    JoinsNext(text + a, pieces + [a], b);
    JoinsNext(text + a + b, pieces + [a] + [b], c);
    assert pieces + [a] + [b] + [c] == pieces + [a, b, c];
  }

  lemma OpeningIsJoined(hook: string, id: string, message: string)
    ensures Joins(OPENING + " hook=\"" + hook + "\" id=\"" + id + "\">\n" + message + "\n",
                  ["<ashkelon-ping hook=\"", hook, "\" id=\"", id, "\">\n", message, "\n"], "")
  {
    var first := OPENING + " hook=\"";
    JoinsOne(first, "");
    JoinsThree(first, [first], hook, "\" id=\"", id);
    JoinsThree(first + hook + "\" id=\"" + id, [first] + [hook, "\" id=\"", id], "\">\n", message, "\n");
    SevenPieces(first, hook, "\" id=\"", id, "\">\n", message, "\n");
    assert first == "<ashkelon-ping hook=\"";
  }

  lemma SevenPieces(a: string, b: string, c: string, d: string, e: string, f: string, g: string)
    ensures [a] + [b, c, d] + [e, f, g] == [a, b, c, d, e, f, g]
  {
  }

  lemma ThreeTogether(text: string, a: string, b: string, c: string)
    ensures text + a + b + c == text + (a + b + c)
  {
  }

  /** A failure's text is exactly those pieces, one right behind the other. */
  lemma FailureTextIs(digests: Digests, hook: string, message: string, fix: Option<string>)
    ensures var ping := FailurePing(digests, hook, message, fix);
      && Joins(ping.text, FailurePieces(hook, ping.id, message, fix), "")
      && ping.hook == hook && !ping.transient && ping.attachments == []
  {
    var id := FailurePing(digests, hook, message, fix).id;
    var opening := OPENING + " hook=\"" + hook + "\" id=\"" + id + "\">\n" + message + "\n";
    var pieces := ["<ashkelon-ping hook=\"", hook, "\" id=\"", id, "\">\n", message, "\n"];
    OpeningIsJoined(hook, id, message);
    match fix
    case None =>
      JoinsNext(opening, pieces, "</ashkelon-ping>");
      NoSeparator(opening, "");
      assert pieces + [] == pieces && opening + "" == opening;
    case Some(f) =>
      JoinsThree(opening, pieces, "fix: ", f, "\n");
      ThreeTogether(opening, "fix: ", f, "\n");
      JoinsNext(opening + "fix: " + f + "\n", pieces + ["fix: ", f, "\n"], "</ashkelon-ping>");
  }

  // ---------- the parts of a ping ----------

  /** A part that says a text. */
  predicate SaysText(wire: Wire, part: Value, text: string) {
    && part.GetStr("type") == Some(if wire.OpenAiResponses? then "input_text" else "text")
    && part.GetStr("text") == Some(text)
  }

  ghost predicate IsDataUrl(url: string, image: Image) {
    Joins(url, ["data:", image.mimeType, ";base64,", image.dataBase64], "")
  }

  /** A part that shows an image, as each wire wants it. */
  ghost predicate ShowsImage(wire: Wire, part: Value, image: Image) {
    match wire
    case AnthropicMessages =>
      && part.GetStr("type") == Some("image") && part.Get("source").Some?
      && var source := part.Get("source").value;
         && source.GetStr("type") == Some("base64") && source.GetStr("media_type") == Some(image.mimeType)
         && source.GetStr("data") == Some(image.dataBase64)
    case OpenAiResponses =>
      && part.GetStr("type") == Some("input_image")
      && part.GetStr("image_url").Some? && IsDataUrl(part.GetStr("image_url").value, image)
    case _ =>
      && part.GetStr("type") == Some("image_url") && part.Get("image_url").Some?
      && var link := part.Get("image_url").value; link.GetStr("url").Some? && IsDataUrl(link.GetStr("url").value, image)
  }

  /** From a place on, parts show images in order, each behind its alternative text if it has one, and nothing else. */
  ghost predicate ShowImages(wire: Wire, parts: seq<Value>, images: seq<Image>)
    decreases |images|
  {
    if images == [] then parts == [] else
    match images[0].altText
    case None => parts != [] && ShowsImage(wire, parts[0], images[0]) && ShowImages(wire, parts[1..], images[1..])
    case Some(alt) =>
      && |parts| >= 2 && SaysText(wire, parts[0], alt) && ShowsImage(wire, parts[1], images[0])
      && ShowImages(wire, parts[2..], images[1..])
  }

  /** Parts that say a text, if it is not empty, and then show images. */
  ghost predicate ShowPing(wire: Wire, parts: seq<Value>, text: string, images: seq<Image>) {
    if text == "" then ShowImages(wire, parts, images)
    else parts != [] && SaysText(wire, parts[0], text) && ShowImages(wire, parts[1..], images)
  }

  lemma TextSays(wire: Wire, text: string)
    ensures SaysText(wire, Text(TextKind(wire), text), text)
  {
    assert "type"[1] != "text"[1];
    var kind, words := Field("type", String(TextKind(wire))), Field("text", String(text));
    GetSecond(kind, words, []);
    assert [kind, words] + [] == [kind, words];
  }

  lemma DataUrlIs(image: Image)
    ensures IsDataUrl(DataUrl(image), image)
  {
    JoinsOne("data:", "");
    JoinsThree("data:", ["data:"], image.mimeType, ";base64,", image.dataBase64);
    assert ["data:"] + [image.mimeType, ";base64,", image.dataBase64]
        == ["data:", image.mimeType, ";base64,", image.dataBase64];
  }

  lemma ImageIsShown(wire: Wire, image: Image)
    ensures ShowsImage(wire, ImagePart(wire, image), image)
  {
    DataUrlIs(image);
    match wire
    case AnthropicMessages => SourceIsShown(image);
    case OpenAiResponses =>
      assert "type"[0] != "image_url"[0];
      TwoFields(Field("type", String("input_image")), Field("image_url", String(DataUrl(image))));
    case _ =>
      assert "type"[0] != "image_url"[0];
      TwoFields(Field("type", String("image_url")), Field("image_url", Object([Field("url", String(DataUrl(image)))])));
  }

  lemma TwoFields(first: Field, second: Field)
    requires first.key != second.key
    ensures Object([first, second]).Get(first.key) == Some(first.value)
    ensures Object([first, second]).Get(second.key) == Some(second.value)
  {
    GetSecond(first, second, []);
    assert [first, second] + [] == [first, second];
  }

  lemma SourceIsShown(image: Image)
    ensures ShowsImage(AnthropicMessages, ImagePart(AnthropicMessages, image), image)
  {
    var base, mime, data := Field("type", String("base64")), Field("media_type", String(image.mimeType)),
                            Field("data", String(image.dataBase64));
    assert "type"[0] != "source"[0] && "type"[0] != "media_type"[0] && "type"[0] != "data"[0] && "media_type"[0] != "data"[0];
    TwoFields(Field("type", String("image")), Field("source", Object([base, mime, data])));
    GetSecond(base, mime, [data]);
    assert [base, mime] + [data] == [base, mime, data];
    GetThird(base, mime, data);
  }

  lemma {:induction false} ImagesAreShown(wire: Wire, images: seq<Image>)
    ensures ShowImages(wire, ImageParts(wire, images), images)
  {
    if images != [] {
      ImagesAreShown(wire, images[1..]);
      ImageIsShown(wire, images[0]);
      var rest, parts := ImageParts(wire, images[1..]), ImageParts(wire, images);
      match images[0].altText
      case None => assert parts[1..] == rest;
      case Some(alt) =>
        TextSays(wire, alt);
        assert parts[2..] == rest;
    }
  }

  lemma PartsShowPing(wire: Wire, pin: PinnedPing)
    ensures ShowPing(wire, Parts(wire, pin), pin.text, pin.attachments)
  {
    ImagesAreShown(wire, pin.attachments);
    TextSays(wire, pin.text);
    if pin.text == "" {
      assert Parts(wire, pin) == ImageParts(wire, pin.attachments);
    } else {
      assert Parts(wire, pin)[1..] == ImageParts(wire, pin.attachments);
    }
  }

  lemma ResponsesItemReads(pin: PinnedPing)
    ensures var item := ResponsesItem(pin);
      && item.GetStr("type") == Some("message") && item.GetStr("role") == Some("user")
      && item.GetArray("content") == Some(Parts(OpenAiResponses, pin))
  {
    var item := ResponsesItem(pin);
    assert "type"[0] != "role"[0] && "type"[0] != "content"[0] && "role"[0] != "content"[0];
    GetSecond(item.fields[0], item.fields[1], [item.fields[2]]);
    assert [item.fields[0], item.fields[1]] + [item.fields[2]] == item.fields;
    GetThird(item.fields[0], item.fields[1], item.fields[2]);
    assert item.fields == [item.fields[0], item.fields[1], item.fields[2]];
  }

  lemma ChatItemReads(pin: PinnedPing)
    ensures var item := ChatItem(pin);
      && item.GetStr("role") == Some("user")
      && if pin.attachments == [] then item.GetStr("content") == Some(pin.text)
         else item.GetArray("content") == Some(Parts(OpenAiChat, pin))
  {
    var item := ChatItem(pin);
    assert "role"[0] != "content"[0];
    TwoFields(item.fields[0], item.fields[1]);
    assert item.fields == [item.fields[0], item.fields[1]];
  }

  /**
   What stands for a ping on a wire: on Anthropic parts of a message, elsewhere one user item whose content shows it - on Chat
   its text alone when there are no images.
   */
  ghost predicate Shown(wire: Wire, inserted: seq<Value>, text: string, images: seq<Image>) {
    match wire
    case AnthropicMessages => ShowPing(wire, inserted, text, images)
    case OpenAiResponses =>
      && |inserted| == 1 && inserted[0].GetStr("type") == Some("message") && inserted[0].GetStr("role") == Some("user")
      && inserted[0].GetArray("content").Some? && ShowPing(wire, inserted[0].GetArray("content").value, text, images)
    case OpenAiChat =>
      && |inserted| == 1 && inserted[0].GetStr("role") == Some("user")
      && if images == [] then inserted[0].GetStr("content") == Some(text)
         else inserted[0].GetArray("content").Some? && ShowPing(wire, inserted[0].GetArray("content").value, text, images)
    case Opaque => true
  }

  /** What a ping is inserted as shows its text and its images, on every wire. */
  lemma AdditionShowsPing(wire: Wire, pin: PinnedPing)
    ensures Shown(wire, Maker(wire)(pin), pin.text, pin.attachments)
  {
    PartsShowPing(wire, pin);
    match wire
    case AnthropicMessages =>
    case OpenAiResponses => ResponsesItemReads(pin);
    case OpenAiChat => ChatItemReads(pin);
    case Opaque =>
  }
}
