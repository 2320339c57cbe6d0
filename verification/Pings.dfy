/**
 Pings (`src/hooks/ping.rs`): what a failing or signalling hook sends the agent, before and after it is
 pinned to a conversation position. SHA-256 is an arbitrary total function, so nothing proved about ids
 relies on digests being distinct, except where two texts are said not to collide.
 */
module Pings {
  import opened Wrappers

  datatype Image = Image(mimeType: string, dataBase64: string, altText: Option<string>)

  datatype Ping = Ping(id: string, hook: string, text: string, transient: bool, attachments: seq<Image>)

  /** A ping placed at the conversation item it was first delivered with. */
  datatype PinnedPing = PinnedPing(id: string, anchor: nat, text: string, attachments: seq<Image>)

  /** The truncated SHA-256 digests: of a failure's text, of a signal's parts, each behind its length, and of a prompt. */
  datatype Digests = Digests(failure: string -> string, signal: seq<string> -> string, prompt: string -> string)

  const OPENING := "<ashkelon-ping"

  function FormatPing(hook: string, id: string, message: string, fix: Option<string>): string {
    OPENING + " hook=\"" + hook + "\" id=\"" + id + "\">\n" + message + "\n"
    + (match fix case None => "" case Some(f) => "fix: " + f + "\n")
    + "</ashkelon-ping>"
  }

  function FailurePing(digests: Digests, hook: string, message: string, fix: Option<string>): Ping {
    var id := digests.failure(hook + message);
    Ping(id, hook, FormatPing(hook, id, message, fix), false, [])
  }

  /** What a signal's digest covers of an image; an absent alternative text counts as an empty one. */
  function DigestParts(image: Image): seq<string> {
    [image.mimeType, image.dataBase64, match image.altText case Some(alt) => alt case None => ""]
  }

  function SignalParts(hook: string, message: string, images: seq<Image>): seq<string> {
    if images == [] then [hook, message]
    else SignalParts(hook, message, images[..|images| - 1]) + DigestParts(images[|images| - 1])
  }

  function SignalPing(digests: Digests, hook: string, message: string, attachments: seq<Image>): Ping {
    Ping(digests.signal(SignalParts(hook, message, attachments)), hook, message, true, attachments)
  }

  function IntoPinned(ping: Ping, anchor: nat): PinnedPing {
    PinnedPing(ping.id, anchor, ping.text, ping.attachments)
  }

  /** The Unicode `White_Space` property, which `str::trim_start` strips. */
  predicate IsWhitespace(c: char) {
    || '\U{0009}' <= c <= '\U{000d}'
    || c == '\U{0020}' || c == '\U{0085}' || c == '\U{00a0}' || c == '\U{1680}'
    || '\U{2000}' <= c <= '\U{200a}'
    || c == '\U{2028}' || c == '\U{2029}' || c == '\U{202f}' || c == '\U{205f}' || c == '\U{3000}'
  }

  function TrimStart(text: string): string {
    if text != [] && IsWhitespace(text[0]) then TrimStart(text[1..]) else text
  }

  /** Whether a text is one of our own pings, so that it is never taken for a prompt. */
  predicate IsPingText(text: string) {
    OPENING <= TrimStart(text)
  }

  lemma FailurePingIsPingText(digests: Digests, hook: string, message: string, fix: Option<string>)
    ensures IsPingText(FailurePing(digests, hook, message, fix).text)
    ensures FailurePing(digests, hook, message, fix).text != ""
  {
    var text := FailurePing(digests, hook, message, fix).text;
    assert text[0] == OPENING[0];
    assert TrimStart(text) == text;
  }

  /**
   The digest covers hook and message with no separator, so whatever the hash is, two different failures
   whose names and messages concatenate to the same text carry one id.
   */
  lemma FailureIdIgnoresTheHookBoundary(digests: Digests, hook: string, moved: string, message: string,
                                        fix: Option<string>)
    ensures FailurePing(digests, hook + moved, message, fix).id == FailurePing(digests, hook, moved + message, fix).id
  {
    assert (hook + moved) + message == hook + (moved + message);
  }

  /** Two different contents with one digest. */
  predicate Collide<T(==)>(digest: T -> string, a: T, b: T) {
    a != b && digest(a) == digest(b)
  }

  /** Unless the digest collides, two failures share an id exactly when their names and messages run together to one text. */
  lemma FailureIdsAgreeExactlyWhen(digests: Digests, hook: string, message: string, fix: Option<string>,
                                   other: string, otherMessage: string, otherFix: Option<string>)
    requires !Collide(digests.failure, hook + message, other + otherMessage)
    ensures FailurePing(digests, hook, message, fix).id == FailurePing(digests, other, otherMessage, otherFix).id
       <==> hook + message == other + otherMessage
  {
  }

  /** Two images that differ in nothing but whether an empty alternative text is there. */
  predicate SameImage(a: Image, b: Image) {
    && a.mimeType == b.mimeType && a.dataBase64 == b.dataBase64
    && (a.altText == b.altText || (a.altText in {None, Some("")} && b.altText in {None, Some("")}))
  }

  predicate SameImages(a: seq<Image>, b: seq<Image>) {
    |a| == |b| && forall i :: 0 <= i < |a| ==> SameImage(a[i], b[i])
  }

  lemma SnocAgrees(a: seq<string>, b: seq<string>, image: Image, other: Image)
    ensures a + DigestParts(image) == b + DigestParts(other) <==> a == b && SameImage(image, other)
  {
    var left, right := a + DigestParts(image), b + DigestParts(other);
    if left == right {
      assert a == left[..|a|] && b == right[..|b|];
      assert DigestParts(image) == left[|a|..] && DigestParts(other) == right[|b|..];
      assert DigestParts(image)[0] == DigestParts(other)[0] && DigestParts(image)[1] == DigestParts(other)[1]
          && DigestParts(image)[2] == DigestParts(other)[2];
    }
  }

  lemma {:induction false} PartsAgreeExactlyWhen(hook: string, message: string, images: seq<Image>,
                                                 other: string, otherMessage: string, otherImages: seq<Image>)
    ensures |SignalParts(hook, message, images)| == 2 + 3 * |images|
    ensures SignalParts(hook, message, images) == SignalParts(other, otherMessage, otherImages)
       <==> hook == other && message == otherMessage && SameImages(images, otherImages)
    decreases |images| + |otherImages|
  {
    if images != [] {
      PartsAgreeExactlyWhen(hook, message, images[..|images| - 1], other, otherMessage, []);
    }
    if otherImages != [] {
      PartsAgreeExactlyWhen(other, otherMessage, otherImages[..|otherImages| - 1], hook, message, []);
    }
    if images != [] && otherImages != [] {
      var front, otherFront := images[..|images| - 1], otherImages[..|otherImages| - 1];
      PartsAgreeExactlyWhen(hook, message, front, other, otherMessage, otherFront);
      SnocAgrees(SignalParts(hook, message, front), SignalParts(other, otherMessage, otherFront),
                 images[|images| - 1], otherImages[|otherImages| - 1]);
    }
  }

  /**
   A signal's digest keeps its parts apart: unless it collides, two signals share an id exactly when hook, message and images
   agree, an absent alternative text and an empty one being the same.
   */
  lemma SignalIdsAgreeExactlyWhen(digests: Digests, hook: string, message: string, images: seq<Image>,
                                  other: string, otherMessage: string, otherImages: seq<Image>)
    requires !Collide(digests.signal, SignalParts(hook, message, images), SignalParts(other, otherMessage, otherImages))
    ensures SignalPing(digests, hook, message, images).id == SignalPing(digests, other, otherMessage, otherImages).id
       <==> hook == other && message == otherMessage && SameImages(images, otherImages)
  {
    PartsAgreeExactlyWhen(hook, message, images, other, otherMessage, otherImages);
  }
}
