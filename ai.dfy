/** `AiService.generateBlogPost` (src/ai/ai.service.ts): one chat call with a
    single fallback retry, extraction and validation of the JSON answer, the
    slug candidate, and the cover image chain (native image, remote
    placeholder, local SVG placeholder) with the file name chosen from a
    content-type hint or the base64 magic prefix.

    Every foreign call is an input: the two chat replies, `JSON.parse` (a
    function from text to an optional parsed object), the image API answer
    and the two `fetch` outcomes. The calls the service issues are returned
    as a trace. */
module AiService {
  import opened Wrappers
  import opened Text
  import Slug
  import opened Encoding

  const FailureMessage := "Falha ao gerar post com IA"
  const DefaultChatModel := "gpt-5"
  const FallbackModel := "gpt-5"
  const DefaultImageModel := "gpt-image-1"
  const DefaultImageSize := "1536x1024"
  const PlaceholderTitle := "Houser Blog"
  const SvgContentType := "image/svg+xml"

  // ------------------------------------------------------------ JSON values

  /** A property of the parsed answer: absent, a string, or any other JSON
      value, given by its truthiness, whether it is an array, and what
      `String(value)` prints for it. */
  datatype Field = Missing | Str(s: string) | Other(truthy: bool, isArray: bool, shown: string) {
    predicate IsTruthy() {
      match this
      case Missing => false
      case Str(s) => s != ""
      case Other(t, _, _) => t
    }

    /** `typeof value === 'string' ? value : undefined`. */
    function AsString(): (r: Option<string>)
      ensures r.Some? <==> Str?
    {
      if Str? then Some(s) else None
    }
  }

  /** The object `JSON.parse` returned, reduced to the properties the service
      reads; `metaTags` is present when it is an array. */
  datatype Parsed = Parsed(
    title: Field, slug: Field, description: Field, content: Field,
    imagePrompt: Field, metaTags: Option<seq<string>>,
    socialLinkedin: Field, socialInstagram: Field)

  // ------------------------------------------------------------ chat model

  /** `(OPENAI_CHAT_MODEL || 'gpt-5').trim()`. */
  function ChatModel(env: Option<string>): string {
    Trim(OrElse(env, DefaultChatModel))
  }

  /** The content of a chat answer: a string, a list of parts (each with an
      optional `text`), or anything else. */
  datatype Content = Plain(text: string) | Parts(texts: seq<Option<string>>) | Unrecognised

  datatype Reply = Answer(content: Content) | Raised(message: string)

  /** The failures that trigger the one retry with the fixed model. */
  predicate MissingModel(message: string) {
    Contains(message, "model_not_found") || Contains(message, "does not have access to model")
  }

  /** The external calls the service issues, in order. */
  datatype Call =
    | ChatCall(model: string, userPrompt: string)
    | ImageGeneration(model: string, size: ImageSize)
    | FetchNative(url: string)
    | FetchPlaceholder(target: PlaceholderTarget)

  datatype PlaceholderTarget = CustomUrl(url: string) | DefaultService(w: nat, h: nat)

  datatype Chat = Chat(calls: seq<Call>, outcome: Result<Content, string>)

  /** The chat step: the configured model first; exactly one retry with
      `gpt-5` when the failure names a missing model; any other failure is
      passed on without a retry. */
  function Converse(chatModel: string, prompt: string, first: Reply, retry: Reply): (c: Chat)
    ensures 1 <= |c.calls| <= 2 && c.calls[0] == ChatCall(chatModel, prompt)
    ensures |c.calls| == 2 <==> first.Raised? && MissingModel(first.message)
    ensures |c.calls| == 2 ==> c.calls[1] == ChatCall(FallbackModel, prompt)
    ensures first.Answer? ==> c.outcome == Success(first.content)
    ensures first.Raised? && !MissingModel(first.message) ==> c.outcome == Failure(first.message)
    ensures |c.calls| == 2 ==>
      c.outcome == (if retry.Answer? then Success(retry.content) else Failure(retry.message))
  {
    match first
    case Answer(content) => Chat([ChatCall(chatModel, prompt)], Success(content))
    case Raised(message) =>
      if MissingModel(message) then
        var calls := [ChatCall(chatModel, prompt), ChatCall(FallbackModel, prompt)];
        match retry
        case Answer(content) => Chat(calls, Success(content))
        case Raised(m) => Chat(calls, Failure(m))
      else Chat([ChatCall(chatModel, prompt)], Failure(message))
  }

  // ------------------------------------------------------------ answer text

  function PartTexts(texts: seq<Option<string>>): (r: seq<string>)
    ensures |r| == |texts|
    ensures forall i :: 0 <= i < |texts| ==> r[i] == texts[i].GetOr("")
  {
    if texts == [] then [] else [texts[0].GetOr("")] + PartTexts(texts[1..])
  }

  /** The text the answer is parsed from: a string as it is, the parts'
      texts (missing ones as `''`) joined with newlines, `''` otherwise. */
  function ResponseText(c: Content): string {
    match c
    case Plain(t) => t
    case Parts(ts) => if ts == [] then "" else Join(PartTexts(ts), '\n')
    case Unrecognised => ""
  }

  /** Nothing is lost in joining: splitting the text at newlines gives back
      the parts' texts, when none of them contains a newline. */
  lemma ResponseTextParts(ts: seq<Option<string>>)
    requires |ts| >= 1
    requires forall i :: 0 <= i < |ts| ==> '\n' !in ts[i].GetOr("")
    ensures Split(ResponseText(Parts(ts)), '\n') == PartTexts(ts)
  {
    SplitJoin(PartTexts(ts), '\n');
  }

  // ------------------------------------------------------------ safeJson

  const FenceJsonNl := "```json\n"
  const FenceJson := "```json"
  const Fence := "```"

  /** `replace(/^```json\n?|```$/g, '')`: one leading "```json" (with its
      newline, when there is one) and one trailing "```" come off. */
  function StripFences(t: string): (r: string)
    ensures |r| <= |t|
    ensures !StartsWith(t, FenceJson) && !EndsWith(t, Fence) ==> r == t
    ensures !StartsWith(t, FenceJson) && EndsWith(t, Fence) ==> r + Fence == t
  {
    FenceJsonOfNl(t);
    var a := if StartsWith(t, FenceJsonNl) then t[|FenceJsonNl|..]
             else if StartsWith(t, FenceJson) then t[|FenceJson|..]
             else t;
    if EndsWith(a, Fence) then a[..|a| - |Fence|] else a
  }

  /** A "```json\n" opening is also a "```json" opening. */
  lemma FenceJsonOfNl(t: string)
    ensures StartsWith(t, FenceJsonNl) ==> StartsWith(t, FenceJson)
  {
    if StartsWith(t, FenceJsonNl) {
      assert t[..|FenceJson|] == t[..|FenceJsonNl|][..|FenceJson|];
    }
  }

  /** What comes off: the tagged opening (with its newline, when there is
      one) and the closing fence, each only when present, and nothing
      else. */
  lemma StripFencesPieces(t: string)
    ensures StartsWith(t, FenceJsonNl) && |t| >= |FenceJsonNl| + |Fence| && EndsWith(t, Fence) ==>
      FenceJsonNl + StripFences(t) + Fence == t
    ensures StartsWith(t, FenceJsonNl) && !EndsWith(t, Fence) ==> FenceJsonNl + StripFences(t) == t
    ensures StartsWith(t, FenceJson) && !StartsWith(t, FenceJsonNl) && |t| >= |FenceJson| + |Fence| && EndsWith(t, Fence) ==>
      FenceJson + StripFences(t) + Fence == t
    ensures StartsWith(t, FenceJson) && !StartsWith(t, FenceJsonNl) && !EndsWith(t, Fence) ==> FenceJson + StripFences(t) == t
  {
    if StartsWith(t, FenceJsonNl) {
      Peel(t, FenceJsonNl, Fence);
    } else if StartsWith(t, FenceJson) {
      Peel(t, FenceJson, Fence);
    }
  }

  /** Taking an opening `p` off `t`, then a closing `f` when the rest ends
      with it, leaves what lies between. */
  lemma Peel(t: string, p: string, f: string)
    requires StartsWith(t, p)
    ensures var a := t[|p|..];
      && (|t| >= |p| + |f| ==> (EndsWith(a, f) <==> EndsWith(t, f)))
      && (!EndsWith(t, f) ==> !EndsWith(a, f) && p + a == t)
      && (EndsWith(a, f) ==> p + a[..|a| - |f|] + f == t)
  {
    var a := t[|p|..];
    assert t == p + a;
    if |a| >= |f| {
      assert a[|a| - |f|..] == t[|t| - |f|..];
      assert a == a[..|a| - |f|] + a[|a| - |f|..];
    }
  }

  /** `safeJson`: trim, strip the fences, parse; a parse failure is `None`
      and never an exception. */
  function SafeJson(text: string, parse: string -> Option<Parsed>): Option<Parsed> {
    parse(StripFences(Trim(text)))
  }

  /** A fenced answer comes out as its body. */
  lemma FencedAnswer(body: string)
    ensures StripFences(Trim(FenceJsonNl + body + Fence)) == body
  {
    var a := body + Fence;
    var t := FenceJsonNl + a;
    assert FenceJsonNl + body + Fence == t;
    StartsWithConcat(FenceJsonNl, a);
    EndsWithConcat(body, Fence);
    assert t[0] == '`' && t[|t| - 1] == '`';
    TrimOfTrimmed(t);
  }

  /** A fence without the `json` tag is not stripped at its start: the
      answer then keeps its leading backquotes. */
  lemma UntaggedFenceKept(body: string)
    ensures StripFences(Trim(Fence + "\n" + body + Fence)) == Fence + "\n" + body
  {
    var head := Fence + "\n" + body;
    var t := head + Fence;
    assert Fence + "\n" + body + Fence == t;
    EndsWithConcat(head, Fence);
    assert t[3] == '\n';
    assert !StartsWith(t, FenceJson) && !StartsWith(t, FenceJsonNl);
    assert t[0] == '`' && t[|t| - 1] == '`';
    TrimOfTrimmed(t);
  }

  /** The required-field check. */
  predicate IsComplete(p: Parsed) {
    p.title.IsTruthy() && p.description.IsTruthy() && p.content.IsTruthy()
  }

  // ------------------------------------------------------------ slug candidate

  /** `parsed.slug` kept untrimmed when it is a string with a non-blank trim,
      otherwise `toSlug(parsed.title)`; `toSlug` on a non-string title is a
      TypeError. */
  function SlugCandidate(p: Parsed): (r: Result<string, string>)
    ensures p.slug.Str? && Trim(p.slug.s) != "" ==> r == Success(p.slug.s)
    ensures !(p.slug.Str? && Trim(p.slug.s) != "") ==>
      r == (if p.title.Str? then Success(Slug.Slugify(p.title.s)) else Failure("toSlug: title is not a string"))
  {
    if p.slug.Str? && Trim(p.slug.s) != "" then Success(p.slug.s)
    else if p.title.Str? then Success(Slug.Slugify(p.title.s))
    else Failure("toSlug: title is not a string")
  }

  /** A generated candidate (no usable slug in the answer) is slug-shaped. */
  lemma SlugCandidateShape(p: Parsed)
    requires !(p.slug.Str? && Trim(p.slug.s) != "")
    requires SlugCandidate(p).Success?
    ensures Slug.IsSlugShaped(SlugCandidate(p).value)
  {
    Slug.SlugifyShape(p.title.s);
  }

  // ------------------------------------------------------------ image size

  datatype ImageSize = Square | Portrait | Landscape | Auto

  function SizeName(s: ImageSize): string {
    match s
    case Square => "1024x1024"
    case Portrait => "1024x1536"
    case Landscape => "1536x1024"
    case Auto => "auto"
  }

  predicate IsTimes(c: char) { c == 'x' || c == 'X' }

  function FirstTimes(s: string, from: nat): (k: int)
    requires from <= |s|
    ensures k == -1 || (from <= k < |s| && IsTimes(s[k]))
    ensures forall j :: from <= j < |s| && (k == -1 || j < k) ==> !IsTimes(s[j])
    decreases |s| - from
  {
    if from == |s| then -1
    else if IsTimes(s[from]) then from
    else FirstTimes(s, from + 1)
  }

  /** `/^(\d+)x(\d+)$/i` with both groups read as decimal numbers. */
  function Dims(s: string): (r: Option<(nat, nat)>)
    ensures r.Some? ==> exists k :: (0 < k < |s| - 1 && IsTimes(s[k])
      && AllDigits(s[..k]) && AllDigits(s[k + 1..])
      && r.value == (ParseDigits(s[..k]), ParseDigits(s[k + 1..])))
  {
    var k := FirstTimes(s, 0);
    if 0 < k < |s| - 1 && AllDigits(s[..k]) && AllDigits(s[k + 1..])
    then Some((ParseDigits(s[..k]), ParseDigits(s[k + 1..])))
    else None
  }

  /** Every string of the matched shape is recognised, with its two numbers. */
  lemma DimsOfShape(s: string, k: nat)
    requires 0 < k < |s| - 1 && IsTimes(s[k])
    requires AllDigits(s[..k]) && AllDigits(s[k + 1..])
    ensures Dims(s) == Some((ParseDigits(s[..k]), ParseDigits(s[k + 1..])))
  {
    assert forall j :: 0 <= j < k ==> s[..k][j] == s[j];
    assert FirstTimes(s, 0) == k;
  }

  /** Printing two numbers as `WxH` and reading them back gives them back. */
  lemma DimsPrinted(w: nat, h: nat)
    ensures Dims(NatToString(w) + "x" + NatToString(h)) == Some((w, h))
  {
    var a, b := NatToString(w), NatToString(h);
    var s := a + "x" + b;
    assert s[..|a|] == a;
    assert s[|a| + 1..] == b;
    DimsOfShape(s, |a|);
    ParsePrinted(w);
    ParsePrinted(h);
  }

  lemma Digits1024()
    ensures AllDigits("1024") && ParseDigits("1024") == 1024
  {
    assert "1024"[..3] == "102" && "102"[..2] == "10" && "10"[..1] == "1" && "1"[..0] == "";
  }

  lemma Digits1536()
    ensures AllDigits("1536") && ParseDigits("1536") == 1536
  {
    assert "1536"[..3] == "153" && "153"[..2] == "15" && "15"[..1] == "1" && "1"[..0] == "";
  }

  lemma Digits1200()
    ensures AllDigits("1200") && ParseDigits("1200") == 1200
  {
    assert "1200"[..3] == "120" && "120"[..2] == "12" && "12"[..1] == "1" && "1"[..0] == "";
  }

  lemma Digits630()
    ensures AllDigits("630") && ParseDigits("630") == 630
  {
    assert "630"[..2] == "63" && "63"[..1] == "6" && "6"[..0] == "";
  }

  /** Two digit strings joined by `x` read as their two numbers. */
  lemma DimsOfParts(a: string, b: string)
    requires a != "" && b != "" && AllDigits(a) && AllDigits(b)
    ensures Dims(a + "x" + b) == Some((ParseDigits(a), ParseDigits(b)))
  {
    var s := a + "x" + b;
    assert s[..|a|] == a && s[|a| + 1..] == b;
    DimsOfShape(s, |a|);
  }

  lemma SquareDims()
    ensures Dims("1024x1024") == Some((1024, 1024))
  {
    Digits1024();
    DimsOfParts("1024", "1024");
    assert "1024" + "x" + "1024" == "1024x1024";
  }

  lemma PortraitDims()
    ensures Dims("1024x1536") == Some((1024, 1536))
  {
    Digits1024();
    Digits1536();
    DimsOfParts("1024", "1536");
    assert "1024" + "x" + "1536" == "1024x1536";
  }

  lemma LandscapeDims()
    ensures Dims("1536x1024") == Some((1536, 1024))
  {
    Digits1024();
    Digits1536();
    DimsOfParts("1536", "1024");
    assert "1536" + "x" + "1024" == "1536x1024";
  }

  lemma AutoPlaceholderDims()
    ensures Dims("1200x630") == Some((1200, 630))
  {
    Digits1200();
    Digits630();
    DimsOfParts("1200", "630");
    assert "1200" + "x" + "630" == "1200x630";
  }

  lemma AutoHasNoDims()
    ensures Dims("auto") == None
  {
    assert FirstTimes("auto", 0) == -1;
  }

  /** The size names that carry dimensions, and the `auto` placeholder
      size, read as `WxH`. */
  lemma NamedDims()
    ensures Dims("1024x1024") == Some((1024, 1024))
    ensures Dims("1024x1536") == Some((1024, 1536))
    ensures Dims("1536x1024") == Some((1536, 1024))
    ensures Dims("1200x630") == Some((1200, 630))
    ensures Dims("auto") == None
  {
    SquareDims();
    PortraitDims();
    LandscapeDims();
    AutoPlaceholderDims();
    AutoHasNoDims();
  }

  function Classify(w: nat, h: nat): ImageSize {
    if w == 0 || h == 0 then Landscape
    else if w == h then Square
    else if w > h then Landscape
    else Portrait
  }

  /** `normalizeSize`: the four accepted names map to themselves; a `WxH`
      string is classified by its sides; everything else is landscape. */
  function NormalizeSize(size: string): ImageSize {
    if size == "1024x1024" then Square
    else if size == "1024x1536" then Portrait
    else if size == "1536x1024" then Landscape
    else if size == "auto" then Auto
    else match Dims(size)
      case None => Landscape
      case Some((w, h)) => Classify(w, h)
  }

  /** Accepted names come back unchanged. */
  lemma NormalizeSizeName(s: ImageSize)
    ensures NormalizeSize(SizeName(s)) == s
  {
  }

  /** 2^53: every integer up to it is exactly a double, so `parseInt` of
      such a side is the side itself. */
  const MaxExactInteger: nat := 0x20_0000_0000_0000

  /** A `WxH` string is classified by its sides: square, landscape when
      wider, portrait when taller, landscape when a side is zero; this holds
      for the accepted names too. */
  lemma NormalizeSizePrinted(w: nat, h: nat)
    requires w <= MaxExactInteger && h <= MaxExactInteger
    ensures NormalizeSize(NatToString(w) + "x" + NatToString(h)) == Classify(w, h)
  {
    var s := NatToString(w) + "x" + NatToString(h);
    DimsPrinted(w, h);
    NamedDims();
    if s == "1024x1024" {
      assert w == 1024 && h == 1024;
    } else if s == "1024x1536" {
      assert w == 1024 && h == 1536;
    } else if s == "1536x1024" {
      assert w == 1536 && h == 1024;
    } else {
      assert s != "auto";
      assert NormalizeSize(s) == Classify(w, h);
    }
  }

  /** Text that is not of the `WxH` shape and not `auto` is landscape. */
  lemma NormalizeSizeUnmatched(size: string)
    requires Dims(size) == None && size != "auto"
    ensures NormalizeSize(size) == Landscape
  {
    NamedDims();
  }

  /** The placeholder dimensions: 1200x630 for `auto`, the size's own
      dimensions otherwise. */
  function PlaceholderDims(size: ImageSize): (d: (nat, nat))
    ensures d.0 > 0 && d.1 > 0
  {
    match size
    case Auto => (1200, 630)
    case Square => (1024, 1024)
    case Portrait => (1024, 1536)
    case Landscape => (1536, 1024)
  }

  /** The table agrees with splitting the size text at `x` and reading both
      halves. */
  lemma PlaceholderDimsParsed(size: ImageSize)
    ensures Dims(if size == Auto then "1200x630" else SizeName(size)) == Some(PlaceholderDims(size))
  {
    NamedDims();
  }

  // ------------------------------------------------------------ extension

  datatype Ext = Png | Jpg | Svg

  function ExtName(e: Ext): string {
    match e
    case Png => "png"
    case Jpg => "jpg"
    case Svg => "svg"
  }

  /** `inferExt`: nothing without data; otherwise the hint decides (`jpeg`,
      then `png`, then `svg`), then the base64 prefix of a PNG, JPEG or
      `<svg` file, and PNG by default. */
  function InferExt(b64: Option<string>, hint: Option<string>): (e: Option<Ext>)
    ensures e.Some? <==> Truthy(b64)
  {
    if !Truthy(b64) then None
    else if Truthy(hint) && Contains(hint.value, "jpeg") then Some(Jpg)
    else if Truthy(hint) && Contains(hint.value, "png") then Some(Png)
    else if Truthy(hint) && Contains(hint.value, "svg") then Some(Svg)
    else if StartsWith(b64.value, "iVBOR") then Some(Png)
    else if StartsWith(b64.value, "/9j/") then Some(Jpg)
    else if StartsWith(b64.value, "PHN2Zy") then Some(Svg)
    else Some(Png)
  }

  /** `b64 && ext ? 'cover.' + ext : undefined`. */
  function CoverFilename(b64: Option<string>, hint: Option<string>): (f: Option<string>)
    ensures f.Some? <==> Truthy(b64)
    ensures f.Some? ==> f.value == "cover." + ExtName(InferExt(b64, hint).value)
  {
    match InferExt(b64, hint)
    case Some(e) => Some("cover." + ExtName(e))
    case None => None
  }

  lemma Base64Char0(b: seq<byte>)
    requires |b| >= 1
    ensures |Base64(b)| >= 1 && Base64(b)[0] == Digit(b[0] as int / 4)
  {
  }

  lemma Base64Char1(b: seq<byte>)
    requires |b| >= 2
    ensures |Base64(b)| >= 2 && Base64(b)[1] == Digit((b[0] as int % 4) * 16 + b[1] as int / 16)
  {
  }

  /** The first six base64 characters of data of at least five bytes. */
  lemma Base64Head(b: seq<byte>)
    requires |b| >= 5
    ensures |Base64(b)| >= 6
    ensures Base64(b)[..4] == Quad(b[0], b[1], b[2])
    ensures Base64(b)[4] == Digit(b[3] as int / 4)
    ensures Base64(b)[5] == Digit((b[3] as int % 4) * 16 + b[4] as int / 16)
  {
    Base64Cons(b);
    Base64Char0(b[3..]);
    Base64Char1(b[3..]);
  }

  /** A PNG file (signature 89 50 4E 47) is recognised by its prefix. */
  lemma PngRecognised(b: seq<byte>)
    requires |b| >= 5 && b[0] == 0x89 && b[1] == 0x50 && b[2] == 0x4E && b[3] == 0x47
    ensures InferExt(Some(Base64(b)), None) == Some(Png)
  {
    Base64Head(b);
    var e := Base64(b);
    assert e[..5] == "iVBOR" by {
      assert e[0] == 'i' && e[1] == 'V' && e[2] == 'B' && e[3] == 'O' && e[4] == 'R';
    }
  }

  /** A JPEG file (signature FF D8 FF) is recognised by its prefix. */
  lemma JpegRecognised(b: seq<byte>)
    requires |b| >= 5 && b[0] == 0xFF && b[1] == 0xD8 && b[2] == 0xFF
    ensures InferExt(Some(Base64(b)), None) == Some(Jpg)
  {
    Base64Head(b);
    var e := Base64(b);
    assert e[0] == '/' && e[1] == '9' && e[2] == 'j' && e[3] == '/';
    assert e[..4] == "/9j/";
    assert !StartsWith(e, "iVBOR") by {
      assert e[..5][0] == '/';
    }
  }

  /** Text starting `<svg ` is recognised by its prefix. */
  lemma SvgTagRecognised(s: string)
    requires StartsWith(s, "<svg ")
    ensures InferExt(Some(Base64(Utf8(s))), None) == Some(Svg)
  {
    var p := "<svg ";
    assert IsAscii(p);
    Utf8AsciiPrefix(s, p);
    var b := Utf8(s);
    assert b[0] == 0x3C && b[1] == 0x73 && b[2] == 0x76 && b[3] == 0x67 && b[4] == 0x20;
    Base64Head(b);
    var e := Base64(b);
    assert e[0] == 'P' && e[1] == 'H' && e[2] == 'N' && e[3] == '2' && e[4] == 'Z' && e[5] == 'y';
    assert e[..6] == "PHN2Zy";
    assert !StartsWith(e, "iVBOR") && !StartsWith(e, "/9j/") by {
      assert e[..4][0] == 'P' && e[..5][0] == 'P';
    }
  }

  /** Data whose base64 starts `PD94` (the encoding of `<?x`) matches none of
      the three prefixes and, without a hint, is named as PNG. */
  lemma XmlPrologNamedPng(e: string)
    requires StartsWith(e, "PD94")
    ensures InferExt(Some(e), None) == Some(Png)
    ensures CoverFilename(Some(e), None) == Some("cover.png")
  {
    assert "cover." + "png" == "cover.png";
    assert e[0] == 'P' && e[1] == 'D';
    assert !StartsWith(e, "iVBOR") by {
      if |e| >= 5 {
        assert e[..5][1] == e[1];
      }
    }
    assert !StartsWith(e, "/9j/") by {
      assert e[..4][0] == e[0];
    }
    assert !StartsWith(e, "PHN2Zy") by {
      if |e| >= 6 {
        assert e[..6][1] == e[1];
      }
    }
  }

  // ------------------------------------------------------------ SVG placeholder

  function Max(a: int, b: int): int { if a >= b then a else b }
  function Min(a: int, b: int): int { if a <= b then a else b }

  /** The title font size: `max(24, min(48, floor(w / 24)))`. */
  function FontSize(w: nat): (f: nat)
    ensures 24 <= f <= 48
    ensures 24 * 24 <= w < 49 * 24 ==> f == w / 24
  {
    Max(24, Min(48, w / 24))
  }

  /** The secondary font size `max(14, floor(fontSize * 0.6))`; for the
      values 24..48 that `FontSize` takes, `floor(f * 0.6)` in double
      precision equals `(3 * f) / 5`. */
  function SmallFontSize(f: nat): (r: nat)
    requires 24 <= f <= 48
    ensures 14 <= r < f && 5 * r <= 3 * f < 5 * r + 5
  {
    Max(14, (3 * f) / 5)
  }

  /** `replace(/[<>]/g, '')`. */
  function RemoveAngles(s: string): (r: string)
    ensures |r| <= |s|
    ensures '<' !in r && '>' !in r
    ensures forall c :: c in s && c != '<' && c != '>' ==> c in r
  {
    if s == [] then []
    else if s[0] == '<' || s[0] == '>' then RemoveAngles(s[1..])
    else [s[0]] + RemoveAngles(s[1..])
  }

  function Take(s: string, n: nat): (r: string)
    ensures |r| <= n && |r| <= |s| && r == s[..|r|]
    ensures |s| <= n ==> r == s
    ensures |s| > n ==> |r| == n
  {
    if |s| <= n then s else s[..n]
  }

  /** `String(parsed.title || 'Houser Blog')`. */
  function ShownTitle(title: Field): string {
    match title
    case Str(s) => if s != "" then s else PlaceholderTitle
    case Other(t, _, shown) => if t then shown else PlaceholderTitle
    case Missing => PlaceholderTitle
  }

  /** The title written into the placeholder: no angle brackets, at most 80
      characters. */
  function SafeTitle(title: Field): (r: string)
    ensures |r| <= 80 && '<' !in r && '>' !in r
  {
    var t := RemoveAngles(ShownTitle(title));
    var r := Take(t, 80);
    assert forall c :: c in r ==> c in t;
    r
  }

  /** The font list of the `<g>` element up to the family that needs
      quoting, written in pieces that are checked one by one. */
  const FamilyHead := "-apple-system," + "BlinkMacSystemFont," + "Segoe UI," + "Roboto," + "Ubuntu," + "Cantarell,"

  /** The font list as the source writes it: `\"` in the template literal is
      a bare double quote inside a double-quoted attribute. */
  const FamilyAsWritten := FamilyHead + "\"Helvetica Neue\",sans-serif"

  /** The same list with the inner family quoted so the attribute stays
      well-formed. */
  const FamilyQuoted := FamilyHead + "'Helvetica Neue',sans-serif"

  const GroupOpen := "<g font-family=\""

  function GroupTag(family: string): string {
    GroupOpen + family + "\">"
  }

  const XmlDeclaration := "<?xml version=\"1.0\" encoding=\"UTF-8\"?>\n"

  function SvgOpen(w: nat, h: nat): string {
    "<svg xmlns=\"http://www.w3.org/2000/svg\" width=\"" + NatToString(w) + "\" height=\"" + NatToString(h)
    + "\" viewBox=\"0 0 " + NatToString(w) + " " + NatToString(h) + "\">"
  }

  const Background := "<rect width=\"100%\" height=\"100%\" fill=\"#0e1116\"/>"

  function TitleText(h: nat, f: nat, title: string): string {
    "<text x=\"40\" y=\"" + NatToString(h / 2) + "\" fill=\"#e6edf3\" font-size=\"" + NatToString(f)
    + "\" font-weight=\"700\">" + title + "</text>"
  }

  function Tagline(h: nat, f: nat): string
    requires 24 <= f <= 48
  {
    "<text x=\"40\" y=\"" + NatToString(h / 2 + f + 20) + "\" fill=\"#2ea043\" font-size=\""
    + NatToString(SmallFontSize(f)) + "\" font-weight=\"500\">Houser Blog</text>"
  }

  /** Everything before the font group. */
  function SvgPrefix(w: nat, h: nat): string {
    XmlDeclaration + (SvgOpen(w, h) + Background)
  }

  lemma SvgPrefixHead(w: nat, h: nat)
    ensures StartsWith(SvgPrefix(w, h), XmlDeclaration)
  {
    StartsWithConcat(XmlDeclaration, SvgOpen(w, h) + Background);
  }

  /** The two text lines and the closing tags. */
  function SvgSuffix(w: nat, h: nat, title: string): string {
    TitleText(h, FontSize(w), title) + Tagline(h, FontSize(w)) + "</g></svg>"
  }

  /** The placeholder document for a `w` x `h` cover titled `title`. */
  function SvgDocument(w: nat, h: nat, title: string, family: string): string {
    SvgPrefix(w, h) + GroupTag(family) + SvgSuffix(w, h, title)
  }

  /** The placeholder starts with the XML declaration. */
  lemma SvgDocumentHead(w: nat, h: nat, title: string, family: string)
    ensures StartsWith(SvgDocument(w, h, title, family), XmlDeclaration)
  {
    var a := SvgPrefix(w, h);
    var g := GroupTag(family);
    SvgPrefixHead(w, h);
    StartsWithConcat(a, g);
    StartsWithConcat(a + g, SvgSuffix(w, h, title));
    StartsWithTrans(a + g, a, XmlDeclaration);
    StartsWithTrans(a + g + SvgSuffix(w, h, title), a + g, XmlDeclaration);
  }

  /** The start tag of the font group is where the document puts it, right
      after the `<svg>` start tag and the background. */
  lemma SvgDocumentGroupTag(w: nat, h: nat, title: string, family: string)
    ensures OccursAt(SvgDocument(w, h, title, family), GroupTag(family), |SvgPrefix(w, h)|)
  {
    OccursBetween(SvgPrefix(w, h), GroupTag(family), SvgSuffix(w, h, title));
  }

  lemma OccursBetween(a: string, g: string, c: string)
    ensures OccursAt(a + g + c, g, |a|)
  {
    assert (a + g + c)[|a|..|a| + |g|] == g;
  }

  /** The placeholder as base64 text. */
  function SvgBase64(w: nat, h: nat, title: Field, family: string): string {
    Base64(Utf8(SvgDocument(w, h, SafeTitle(title), family)))
  }

  lemma XmlDeclarationHead()
    ensures StartsWith(XmlDeclaration, "<?x")
  {
    assert XmlDeclaration[0] == '<' && XmlDeclaration[1] == '?' && XmlDeclaration[2] == 'x';
    assert XmlDeclaration[..3] == "<?x";
  }

  lemma QuadOfXmlHead()
    ensures Quad(0x3C, 0x3F, 0x78) == "PD94"
  {
    assert Digit(15) == 'P' && Digit(3) == 'D' && Digit(61) == '9' && Digit(56) == '4';
  }

  lemma StartsWithTrans(s: string, p: string, q: string)
    requires StartsWith(s, p) && StartsWith(p, q)
    ensures StartsWith(s, q)
  {
    assert s[..|q|] == s[..|p|][..|q|];
  }

  /** The placeholder's base64 text starts `PD94`, the encoding of `<?x`. */
  lemma SvgBase64Head(w: nat, h: nat, title: Field, family: string)
    ensures StartsWith(SvgBase64(w, h, title, family), "PD94")
  {
    var d := SvgDocument(w, h, SafeTitle(title), family);
    var p := "<?x";
    SvgDocumentHead(w, h, SafeTitle(title), family);
    XmlDeclarationHead();
    StartsWithTrans(d, XmlDeclaration, p);
    assert IsAscii(p);
    Utf8AsciiPrefix(d, p);
    var b := Utf8(d);
    assert b[0] == 0x3C && b[1] == 0x3F && b[2] == 0x78;
    Base64Prefix(b);
    QuadOfXmlHead();
  }

  // ---- well-formedness of the `<g>` start tag

  /** The index of the first `"` at or after `from`, when it is `k`. */
  lemma FirstQuote(s: string, from: nat, k: nat)
    requires from <= k < |s| && s[k] == '"'
    requires forall j :: from <= j < k ==> s[j] != '"'
    ensures FindFrom(s, "\"", from) == k
  {
    assert OccursAt(s, "\"", k) by {
      assert s[k..k + 1] == [s[k]];
    }
    forall j | from <= j < k
      ensures !OccursAt(s, "\"", j)
    {
      assert s[j..j + 1][0] == s[j];
    }
    var r := FindFrom(s, "\"", from);
    assert r != -1;
    assert !(from <= r < k);
  }

  /** What follows `font-family="` in the start tag: the attribute value up
      to the next `"`, and the character after that quote. */
  function FamilyAttribute(tag: string): (r: Option<(string, char)>)
    requires StartsWith(tag, GroupOpen)
  {
    var k := FindFrom(tag, "\"", |GroupOpen|);
    if |GroupOpen| <= k < |tag| - 1 then Some((tag[|GroupOpen|..k], tag[k + 1])) else None
  }

  /** A start tag is well-formed only when each attribute value's closing
      quote is followed by white space, `>` or `/` (production [40] STag of
      the W3C XML 1.0 recommendation, section 3.1). */
  predicate EndsAttribute(c: char) {
    c == ' ' || c == '\t' || c == '\n' || c == '\r' || c == '>' || c == '/'
  }

  /** The attribute value of a tag whose font list has a `"` at `k` ends
      there. */
  lemma GroupTagAttribute(family: string, k: nat)
    requires k <= |family|
    requires forall j :: 0 <= j < k ==> family[j] != '"'
    requires k == |family| || family[k] == '"'
    ensures StartsWith(GroupTag(family), GroupOpen)
    ensures FamilyAttribute(GroupTag(family)) == Some((family[..k], GroupTag(family)[|GroupOpen| + k + 1]))
  {
    var t := GroupTag(family);
    var n := |GroupOpen|;
    assert t == GroupOpen + (family + "\">");
    StartsWithConcat(GroupOpen, family + "\">");
    assert t[n..] == family + "\">";
    forall j | n <= j < n + k
      ensures t[j] != '"'
    {
      assert t[j] == t[n..][j - n] == family[j - n];
    }
    assert t[n + k] == '"' by {
      assert t[n + k] == t[n..][k];
    }
    FirstQuote(t, n, n + k);
    assert t[n..n + k] == t[n..][..k] == family[..k];
  }

  lemma NoQuoteAppend(a: string, b: string)
    requires '"' !in a && '"' !in b
    ensures '"' !in a + b
  {
  }

  lemma FamilyHeadNoQuote()
    ensures '"' !in FamilyHead
  {
    var p1, p2, p3, p4, p5, p6 := "-apple-system,", "BlinkMacSystemFont,", "Segoe UI,", "Roboto,", "Ubuntu,", "Cantarell,";
    assert '"' !in p1 && '"' !in p2 && '"' !in p3;
    assert '"' !in p4 && '"' !in p5 && '"' !in p6;
    NoQuoteAppend(p1, p2);
    NoQuoteAppend(p1 + p2, p3);
    NoQuoteAppend(p1 + p2 + p3, p4);
    NoQuoteAppend(p1 + p2 + p3 + p4, p5);
    NoQuoteAppend(p1 + p2 + p3 + p4 + p5, p6);
  }

  /** The start tag as the source writes it: the value ends after
      `Cantarell,` and the quote is followed by `H`, which is not allowed
      there, so the placeholder document is not well-formed XML. */
  lemma GroupTagAsWrittenBreaks()
    ensures StartsWith(GroupTag(FamilyAsWritten), GroupOpen)
    ensures FamilyAttribute(GroupTag(FamilyAsWritten)) == Some((FamilyHead, 'H'))
    ensures !EndsAttribute('H')
  {
    var f := FamilyAsWritten;
    var k := |FamilyHead|;
    FamilyHeadNoQuote();
    var tail := "\"Helvetica Neue\",sans-serif";
    assert f == FamilyHead + tail;
    assert f[..k] == FamilyHead;
    assert f[k] == tail[0] == '"';
    assert forall j :: 0 <= j < k ==> f[j] == FamilyHead[j];
    GroupTagAttribute(f, k);
    var t := GroupTag(f);
    assert t[|GroupOpen| + k + 1] == 'H' by {
      assert t == GroupOpen + f + "\">";
      assert t[|GroupOpen| + k + 1] == f[k + 1] == tail[1];
    }
  }

  /** With the inner family quoted, the value is the whole font list and the
      tag closes right after it. */
  lemma GroupTagQuotedWellFormed()
    ensures StartsWith(GroupTag(FamilyQuoted), GroupOpen)
    ensures FamilyAttribute(GroupTag(FamilyQuoted)) == Some((FamilyQuoted, '>'))
    ensures EndsAttribute('>')
  {
    var f := FamilyQuoted;
    var tail := "'Helvetica Neue',sans-serif";
    FamilyHeadNoQuote();
    assert '"' !in tail;
    NoQuoteAppend(FamilyHead, tail);
    assert forall j :: 0 <= j < |f| ==> f[j] in f;
    GroupTagAttribute(f, |f|);
    var t := GroupTag(f);
    assert t[|GroupOpen| + |f|] == '"' && t[|GroupOpen| + |f| + 1] == '>' by {
      assert t == (GroupOpen + f) + "\">";
    }
    assert f[..|f|] == f;
  }

  // ------------------------------------------------------------ image chain

  /** Whatever the image API answered: an error, no item, or an item with
      (possibly empty) `b64_json` and `url`. */
  datatype NativeOutcome = ApiError(message: string) | NoItem | Item(b64Json: string, url: string)

  /** A `fetch`: a network error, or a response with its status, its
      `content-type` header (`''` when absent) and the body as base64 text
      (`None` when reading the body fails). */
  datatype FetchOutcome =
    | NetworkError
    | Response(ok: bool, contentType: string, body: Option<string>)

  /** A fetch whose status is ok and whose body could be read. */
  predicate Fetched(f: FetchOutcome) {
    f.Response? && f.ok && f.body.Some?
  }

  /** The two locals of the chain, `b64` and `contentTypeHint`, and the calls
      made. */
  datatype Cover = Cover(b64: Option<string>, hint: Option<string>, calls: seq<Call>)

  /** `(value ?? 'true').toLowerCase() !== 'false'`. */
  function EnvFlag(env: Option<string>): (r: bool)
    ensures env.None? ==> r
  {
    ToLower(env.GetOr("true")) != "false"
  }

  /** The native step. The hint is recorded from the response headers before
      the status is checked, so a failed fetch can leave a hint behind. */
  function NativeStage(enabled: bool, model: string, size: ImageSize,
                       native: NativeOutcome, fetched: FetchOutcome): (c: Cover)
    ensures !enabled ==> c == Cover(None, None, [])
    ensures enabled ==> |c.calls| >= 1 && c.calls[0] == ImageGeneration(model, size)
    ensures enabled && native.Item? && native.b64Json != "" ==> c == Cover(Some(native.b64Json), None, c.calls)
    ensures c.hint.Some? ==> (enabled && native.Item? && native.b64Json == "" && fetched.Response?
      && c.hint.value == fetched.contentType != "")
    ensures c.b64.Some? && !(native.Item? && c.b64 == Some(native.b64Json)) ==> Fetched(fetched) && c.b64 == fetched.body
    ensures forall i :: 0 <= i < |c.calls| ==> !c.calls[i].FetchPlaceholder? && !c.calls[i].ChatCall?
  {
    if !enabled then Cover(None, None, [])
    else
      var gen := [ImageGeneration(model, size)];
      match native
      case Item(b, u) =>
        if b != "" then Cover(Some(b), None, gen)
        else if u != "" then
          match fetched
          case NetworkError => Cover(None, None, gen + [FetchNative(u)])
          case Response(ok, ct, body) =>
            var hint := if ct != "" then Some(ct) else None;
            Cover(if ok && body.Some? then body else None, hint, gen + [FetchNative(u)])
        else Cover(None, None, gen)
      case _ => Cover(None, None, gen)
  }

  /** Building the remote URL slices the title; for a truthy title that is
      neither a string nor an array this throws before anything is
      fetched. */
  predicate TitleSliceThrows(title: Field) {
    title.Other? && title.truthy && !title.isArray
  }

  /** The remote placeholder: the configured URL when it is truthy, the
      default service at the cover's dimensions otherwise. */
  function PlaceholderTargetFor(size: ImageSize, customUrl: Option<string>): PlaceholderTarget {
    if Truthy(customUrl) then CustomUrl(customUrl.value)
    else DefaultService(PlaceholderDims(size).0, PlaceholderDims(size).1)
  }

  /** The SVG placeholder, as base64, at the cover's dimensions. */
  function PlaceholderSvg(size: ImageSize, title: Field, family: string): (b: string)
    ensures StartsWith(b, "PD94")
  {
    var d := PlaceholderDims(size);
    SvgBase64Head(d.0, d.1, title, family);
    SvgBase64(d.0, d.1, title, family)
  }

  /** The placeholder step, run when there is no usable `b64` and
      placeholders are enabled: the remote placeholder, or else the local
      SVG. `labelSvg` says whether the SVG branch records its content type as
      the hint, and `family` is the font list written into it. */
  function PlaceholderStage(cover: Cover, enabled: bool, size: ImageSize, customUrl: Option<string>,
                            title: Field, remote: FetchOutcome, labelSvg: bool, family: string): Cover
  {
    if !enabled || Truthy(cover.b64) then cover
    else if TitleSliceThrows(title) then
      Cover(Some(PlaceholderSvg(size, title, family)),
            if labelSvg then Some(SvgContentType) else cover.hint, cover.calls)
    else
      var calls := cover.calls + [FetchPlaceholder(PlaceholderTargetFor(size, customUrl))];
      if Fetched(remote) then Cover(remote.body, cover.hint, calls)
      else
        Cover(Some(PlaceholderSvg(size, title, family)),
              if labelSvg then Some(SvgContentType) else cover.hint, calls)
  }

  /** The placeholder step leaves the cover alone when it already has data
      or placeholders are off; otherwise it always sets data, fetching the
      remote placeholder unless building its URL throws, and falling back
      to the SVG when nothing usable was fetched. */
  lemma PlaceholderStageSpec(cover: Cover, enabled: bool, size: ImageSize, customUrl: Option<string>,
                             title: Field, remote: FetchOutcome, labelSvg: bool, family: string)
    ensures var c := PlaceholderStage(cover, enabled, size, customUrl, title, remote, labelSvg, family);
      && (!(enabled && !Truthy(cover.b64)) ==> c == cover)
      && (enabled && !Truthy(cover.b64) ==> c.b64.Some?)
      && (enabled && !Truthy(cover.b64) && TitleSliceThrows(title) ==> c.calls == cover.calls)
      && (enabled && !Truthy(cover.b64) && !TitleSliceThrows(title) ==>
            c.calls == cover.calls + [FetchPlaceholder(PlaceholderTargetFor(size, customUrl))])
      && (enabled && !Truthy(cover.b64) && !TitleSliceThrows(title) && Fetched(remote) ==>
            c.b64 == remote.body && c.hint == cover.hint)
      && (enabled && !Truthy(cover.b64) && (TitleSliceThrows(title) || !Fetched(remote)) ==>
            c.b64 == Some(PlaceholderSvg(size, title, family))
            && c.hint == (if labelSvg then Some(SvgContentType) else cover.hint))
  {
    var c := PlaceholderStage(cover, enabled, size, customUrl, title, remote, labelSvg, family);
    if enabled && !Truthy(cover.b64) {
      var svg := PlaceholderSvg(size, title, family);
      if TitleSliceThrows(title) {
        assert c == Cover(Some(svg), if labelSvg then Some(SvgContentType) else cover.hint, cover.calls);
      } else if Fetched(remote) {
        assert c.b64 == remote.body;
      } else {
        assert c.b64 == Some(svg);
      }
    }
  }

  /** The configuration the service reads from the environment. */
  datatype AiEnv = AiEnv(
    chatModel: Option<string>, imageEnabled: Option<string>, imageModel: Option<string>,
    imageSize: Option<string>, placeholder: Option<string>, placeholderUrl: Option<string>)

  function ImageSizeOf(env: AiEnv): ImageSize {
    NormalizeSize(OrElse(env.imageSize, DefaultImageSize))
  }

  function ImageModelOf(env: AiEnv): string {
    OrElse(env.imageModel, DefaultImageModel)
  }

  /** The foreign outcomes of one run. */
  datatype Outcomes = Outcomes(
    first: Reply, retry: Reply, parse: string -> Option<Parsed>,
    native: NativeOutcome, nativeFetch: FetchOutcome, placeholderFetch: FetchOutcome)

  function NativeOf(env: AiEnv, o: Outcomes): Cover {
    NativeStage(EnvFlag(env.imageEnabled), ImageModelOf(env), ImageSizeOf(env), o.native, o.nativeFetch)
  }

  function CoverChainWith(env: AiEnv, title: Field, o: Outcomes, labelSvg: bool, family: string): Cover {
    PlaceholderStage(NativeOf(env, o), EnvFlag(env.placeholder), ImageSizeOf(env), env.placeholderUrl, title,
                     o.placeholderFetch, labelSvg, family)
  }

  /** The cover chain as the source writes it: the SVG branch records no
      content type and writes the font list with its bare `"`. */
  function CoverChain(env: AiEnv, title: Field, o: Outcomes): Cover {
    CoverChainWith(env, title, o, false, FamilyAsWritten)
  }

  /** The cover chain as evidently intended: the SVG branch records its
      content type, so the file is named `.svg`, and quotes the font list
      with `'`. */
  function CoverChainCorrected(env: AiEnv, title: Field, o: Outcomes): Cover {
    CoverChainWith(env, title, o, true, FamilyQuoted)
  }

  // ------------------------------------------------------------ the whole run

  /** `GeneratedBlogOutput`. */
  datatype GeneratedPost = GeneratedPost(
    title: Field, slug: string, description: Field, content: Field, metaTags: seq<string>,
    imageBase64: Option<string>, imageFilename: Option<string>,
    socialLinkedin: Option<string>, socialInstagram: Option<string>)

  datatype Generation = Generation(calls: seq<Call>, result: Result<GeneratedPost, string>)

  /** The parsed answer, when the chat step answered: `safeJson(text || '{}')`. */
  function AnswerOf(prompt: string, env: AiEnv, o: Outcomes): Option<Parsed> {
    var chat := Converse(ChatModel(env.chatModel), prompt, o.first, o.retry);
    if chat.outcome.Failure? then None
    else
      var text := ResponseText(chat.outcome.value);
      SafeJson(if text != "" then text else "{}", o.parse)
  }

  /** An answer the service accepts: all three required fields truthy, and a
      slug candidate that can be computed. */
  predicate Accepted(a: Option<Parsed>) {
    a.Some? && IsComplete(a.value) && SlugCandidate(a.value).Success?
  }

  function Output(p: Parsed, cover: Cover): GeneratedPost
    requires SlugCandidate(p).Success?
  {
    GeneratedPost(
      p.title, SlugCandidate(p).value, p.description, p.content, p.metaTags.GetOr([]),
      cover.b64, CoverFilename(cover.b64, cover.hint),
      p.socialLinkedin.AsString(), p.socialInstagram.AsString())
  }

  /** `generateBlogPost`, as a function of its inputs. */
  function Generate(prompt: string, env: AiEnv, o: Outcomes): (g: Generation)
    ensures g.result.Failure? ==> g.result.error == FailureMessage
  {
    var chat := Converse(ChatModel(env.chatModel), prompt, o.first, o.retry);
    var answer := AnswerOf(prompt, env, o);
    if !Accepted(answer) then Generation(chat.calls, Failure(FailureMessage))
    else
      var cover := CoverChain(env, answer.value.title, o);
      Generation(chat.calls + cover.calls, Success(Output(answer.value, cover)))
  }

  /** The chat step of the method: the reassigned `response`. */
  method AskModel(chatModel: string, prompt: string, first: Reply, retry: Reply)
    returns (response: Result<Content, string>, calls: seq<Call>)
    ensures Chat(calls, response) == Converse(chatModel, prompt, first, retry)
  {
    calls := [ChatCall(chatModel, prompt)];
    match first {
      case Answer(c) =>
        response := Success(c);
      case Raised(message) =>
        if !MissingModel(message) {
          response := Failure(message);
        } else {
          calls := calls + [ChatCall(FallbackModel, prompt)];
          response := if retry.Answer? then Success(retry.content) else Failure(retry.message);
        }
    }
  }

  /** The native image step of the method, reassigning `b64` and
      `contentTypeHint`. */
  method NativeImage(enabled: bool, model: string, size: ImageSize, native: NativeOutcome, fetched: FetchOutcome)
    returns (b64: Option<string>, hint: Option<string>, calls: seq<Call>)
    ensures Cover(b64, hint, calls) == NativeStage(enabled, model, size, native, fetched)
  {
    b64, hint, calls := None, None, [];
    if enabled {
      calls := [ImageGeneration(model, size)];
      if native.Item? {
        if native.b64Json != "" {
          b64 := Some(native.b64Json);
        } else if native.url != "" {
          calls := calls + [FetchNative(native.url)];
          if fetched.Response? {
            hint := if fetched.contentType != "" then Some(fetched.contentType) else None;
            if fetched.ok && fetched.body.Some? {
              b64 := fetched.body;
            }
          }
        }
      }
    }
  }

  /** The placeholder step of the method. */
  method PlaceholderImage(b64In: Option<string>, hintIn: Option<string>, callsIn: seq<Call>,
                          enabled: bool, size: ImageSize, customUrl: Option<string>,
                          title: Field, remote: FetchOutcome)
    returns (b64: Option<string>, hint: Option<string>, calls: seq<Call>)
    ensures Cover(b64, hint, calls)
      == PlaceholderStage(Cover(b64In, hintIn, callsIn), enabled, size, customUrl, title, remote, false, FamilyAsWritten)
  {
    b64, hint, calls := b64In, hintIn, callsIn;
    if !Truthy(b64) && enabled {
      var (w, h) := PlaceholderDims(size);
      var fetched := false;
      if !TitleSliceThrows(title) {
        calls := calls + [FetchPlaceholder(PlaceholderTargetFor(size, customUrl))];
        if Fetched(remote) {
          b64 := remote.body;
          fetched := true;
        }
      }
      if !fetched {
        b64 := Some(SvgBase64(w, h, title, FamilyAsWritten));
      }
    }
  }

  /** The imperative form of `generateBlogPost`: the locals are reassigned
      step by step as in the source (with the source's SVG branch), and the
      result is what `Generate` describes. */
  method GenerateBlogPost(prompt: string, env: AiEnv, o: Outcomes)
    returns (result: Result<GeneratedPost, string>, calls: seq<Call>)
    ensures Generation(calls, result) == Generate(prompt, env, o)
  {
    var response;
    response, calls := AskModel(ChatModel(env.chatModel), prompt, o.first, o.retry);
    if response.Failure? {
      return Failure(FailureMessage), calls;
    }
    var text := ResponseText(response.value);
    var parsed := SafeJson(if text != "" then text else "{}", o.parse);
    assert parsed == AnswerOf(prompt, env, o);
    if !Accepted(parsed) {
      return Failure(FailureMessage), calls;
    }
    var p := parsed.value;
    var b64, hint, imageCalls := NativeImage(EnvFlag(env.imageEnabled), ImageModelOf(env), ImageSizeOf(env),
                                             o.native, o.nativeFetch);
    b64, hint, imageCalls := PlaceholderImage(b64, hint, imageCalls, EnvFlag(env.placeholder), ImageSizeOf(env),
                                              env.placeholderUrl, p.title, o.placeholderFetch);
    calls := calls + imageCalls;
    result := Success(Output(p, Cover(b64, hint, imageCalls)));
  }

  // ------------------------------------------------------------ properties

  /** The run fails exactly when the answer is not accepted, and then only
      the chat calls were made: no image is requested for a rejected
      answer. */
  lemma GenerateFailsIff(prompt: string, env: AiEnv, o: Outcomes)
    ensures Generate(prompt, env, o).result.Failure? <==> !Accepted(AnswerOf(prompt, env, o))
    ensures Generate(prompt, env, o).result.Failure? ==>
      var calls := Generate(prompt, env, o).calls;
      1 <= |calls| <= 2 && forall i :: 0 <= i < |calls| ==> calls[i].ChatCall?
  {
    var chat := Converse(ChatModel(env.chatModel), prompt, o.first, o.retry);
    var answer := AnswerOf(prompt, env, o);
    var g := Generate(prompt, env, o);
    if !Accepted(answer) {
      assert g == Generation(chat.calls, Failure(FailureMessage));
      assert chat.calls[0].ChatCall? && (|chat.calls| == 2 ==> chat.calls[1].ChatCall?);
    } else {
      assert g.result == Success(Output(answer.value, CoverChain(env, answer.value.title, o)));
    }
  }

  /** An accepted answer yields its fields, the chosen slug candidate, the
      array `metaTags` (or none), the cover of the image chain, string-only
      social texts, and a file name exactly when there is image data. */
  lemma GenerateOutput(prompt: string, env: AiEnv, o: Outcomes, p: Parsed)
    requires AnswerOf(prompt, env, o) == Some(p) && Accepted(Some(p))
    ensures var g := Generate(prompt, env, o);
      && g.result.Success?
      && g.result.value.title == p.title && g.result.value.title.IsTruthy()
      && g.result.value.description.IsTruthy() && g.result.value.content.IsTruthy()
      && g.result.value.slug == SlugCandidate(p).value
      && (p.metaTags.None? ==> g.result.value.metaTags == [])
      && g.result.value.imageBase64 == CoverChain(env, p.title, o).b64
      && (g.result.value.imageFilename.Some? <==> Truthy(g.result.value.imageBase64))
      && (g.result.value.socialLinkedin.Some? <==> p.socialLinkedin.Str?)
      && (g.result.value.socialInstagram.Some? <==> p.socialInstagram.Str?)
  {
  }

  /** With placeholders enabled `imageBase64` is always set, and it is
      truthy (so the cover gets a file name and is uploaded) unless the
      remote placeholder answered with an empty body. */
  lemma PlaceholderAlwaysCover(env: AiEnv, title: Field, o: Outcomes)
    requires EnvFlag(env.placeholder)
    ensures CoverChain(env, title, o).b64.Some?
    ensures o.placeholderFetch.Response? && o.placeholderFetch.body != Some("") ==> Truthy(CoverChain(env, title, o).b64)
    ensures o.placeholderFetch.NetworkError? ==> Truthy(CoverChain(env, title, o).b64)
  {
    var n := NativeOf(env, o);
    PlaceholderStageSpec(n, EnvFlag(env.placeholder), ImageSizeOf(env), env.placeholderUrl, title,
                         o.placeholderFetch, false, FamilyAsWritten);
    if !Truthy(n.b64) {
      var svg := PlaceholderSvg(ImageSizeOf(env), title, FamilyAsWritten);
      assert StartsWith(svg, "PD94");
    }
  }

  /** With placeholders disabled and no native image, no image data and no
      file name are attached, and no placeholder is fetched. */
  lemma NoPlaceholderNoCover(env: AiEnv, title: Field, o: Outcomes)
    requires !EnvFlag(env.placeholder) && !Truthy(NativeOf(env, o).b64)
    ensures !Truthy(CoverChain(env, title, o).b64)
    ensures CoverFilename(CoverChain(env, title, o).b64, CoverChain(env, title, o).hint) == None
    ensures CoverChain(env, title, o).calls == NativeOf(env, o).calls
  {
  }

  /** A native base64 image is used as it is, without a hint, and nothing is
      fetched. */
  lemma NativeImageFirst(env: AiEnv, title: Field, o: Outcomes)
    requires EnvFlag(env.imageEnabled) && o.native.Item? && o.native.b64Json != ""
    ensures CoverChain(env, title, o) == Cover(Some(o.native.b64Json), None, [ImageGeneration(ImageModelOf(env), ImageSizeOf(env))])
  {
  }

  /** The remote placeholder is fetched only when the native step left no
      usable data and placeholders are enabled, and then at most once. */
  lemma PlaceholderFetchOnlyWhenNeeded(env: AiEnv, title: Field, o: Outcomes, i: nat)
    requires i < |CoverChain(env, title, o).calls| && CoverChain(env, title, o).calls[i].FetchPlaceholder?
    ensures EnvFlag(env.placeholder) && !Truthy(NativeOf(env, o).b64) && !TitleSliceThrows(title)
    ensures i == |CoverChain(env, title, o).calls| - 1
    ensures CoverChain(env, title, o).calls[i].target == PlaceholderTargetFor(ImageSizeOf(env), env.placeholderUrl)
  {
    var n := NativeOf(env, o);
    PlaceholderStageSpec(n, EnvFlag(env.placeholder), ImageSizeOf(env), env.placeholderUrl, title,
                         o.placeholderFetch, false, FamilyAsWritten);
    assert i >= |n.calls|;
  }

  /** The local SVG, for the given stage and font list. */
  lemma SvgBranch(env: AiEnv, title: Field, o: Outcomes, labelSvg: bool, family: string)
    requires EnvFlag(env.placeholder) && !Truthy(NativeOf(env, o).b64)
    requires TitleSliceThrows(title) || !Fetched(o.placeholderFetch)
    ensures var c := CoverChainWith(env, title, o, labelSvg, family);
      && c.b64.Some? && StartsWith(c.b64.value, "PD94")
      && c.hint == (if labelSvg then Some(SvgContentType) else NativeOf(env, o).hint)
  {
    var d := PlaceholderDims(ImageSizeOf(env));
    SvgBase64Head(d.0, d.1, title, family);
  }

  /** As written, the SVG placeholder is named `cover.png` when the native
      step left no hint: its base64 starts `PD94` (for `<?xml`), which
      matches none of the three prefixes. */
  lemma SvgPlaceholderNamedPngAsWritten(env: AiEnv, title: Field, o: Outcomes)
    requires EnvFlag(env.placeholder) && !Truthy(NativeOf(env, o).b64) && NativeOf(env, o).hint == None
    requires TitleSliceThrows(title) || !Fetched(o.placeholderFetch)
    ensures var c := CoverChain(env, title, o);
      CoverFilename(c.b64, c.hint) == Some("cover.png")
  {
    var c := CoverChain(env, title, o);
    SvgBranch(env, title, o, false, FamilyAsWritten);
    XmlPrologNamedPng(c.b64.value);
  }

  /** With the SVG branch recording its content type, the SVG placeholder is
      named `cover.svg`, whatever hint the native step left. */
  lemma SvgPlaceholderNamedSvg(env: AiEnv, title: Field, o: Outcomes)
    requires EnvFlag(env.placeholder) && !Truthy(NativeOf(env, o).b64)
    requires TitleSliceThrows(title) || !Fetched(o.placeholderFetch)
    ensures var c := CoverChainCorrected(env, title, o);
      CoverFilename(c.b64, c.hint) == Some("cover.svg")
  {
    var c := CoverChainCorrected(env, title, o);
    SvgBranch(env, title, o, true, FamilyQuoted);
    SvgHintNamesSvg(c.b64.value);
  }

  /** The corrected chain makes the same calls, and differs from the
      source's only where the local SVG is drawn. */
  lemma CorrectedDiffersOnlyOnSvg(env: AiEnv, title: Field, o: Outcomes)
    ensures CoverChainCorrected(env, title, o).calls == CoverChain(env, title, o).calls
    ensures !(EnvFlag(env.placeholder) && !Truthy(NativeOf(env, o).b64)
              && (TitleSliceThrows(title) || !Fetched(o.placeholderFetch)))
      ==> CoverChainCorrected(env, title, o) == CoverChain(env, title, o)
  {
    var n := NativeOf(env, o);
    PlaceholderStageSpec(n, EnvFlag(env.placeholder), ImageSizeOf(env), env.placeholderUrl, title,
                         o.placeholderFetch, false, FamilyAsWritten);
    PlaceholderStageSpec(n, EnvFlag(env.placeholder), ImageSizeOf(env), env.placeholderUrl, title,
                         o.placeholderFetch, true, FamilyQuoted);
  }

  lemma SvgHintNamesSvg(e: string)
    requires e != ""
    ensures CoverFilename(Some(e), Some(SvgContentType)) == Some("cover.svg")
  {
    AbsentFirstChar(SvgContentType, "jpeg");
    AbsentFirstChar(SvgContentType, "png");
    assert SvgContentType[6..9] == "svg";
    assert OccursAt(SvgContentType, "svg", 6);
    assert InferExt(Some(e), Some(SvgContentType)) == Some(Svg);
    assert "cover." + "svg" == "cover.svg";
  }

  /** A hint left by a failed native fetch is never cleared: a remote
      placeholder that is JPEG data is still named after the stale hint. */
  lemma StaleHintNamesPlaceholder(env: AiEnv, title: Field, o: Outcomes, body: string)
    requires EnvFlag(env.imageEnabled) && EnvFlag(env.placeholder) && !TitleSliceThrows(title)
    requires o.native == Item("", "u") && o.nativeFetch == Response(false, "image/png", Some("iVBOR"))
    requires o.placeholderFetch == Response(true, "image/jpeg", Some("/9j/" + body))
    ensures var c := CoverChain(env, title, o);
      c.b64 == Some("/9j/" + body) && c.hint == Some("image/png")
      && CoverFilename(c.b64, c.hint) == Some("cover.png")
  {
    PngHintNamesPng("/9j/" + body);
  }

  lemma PngHintNamesPng(e: string)
    requires e != ""
    ensures CoverFilename(Some(e), Some("image/png")) == Some("cover.png")
  {
    AbsentFirstChar("image/png", "jpeg");
    assert "image/png"[6..9] == "png";
    assert OccursAt("image/png", "png", 6);
    assert InferExt(Some(e), Some("image/png")) == Some(Png);
    assert "cover." + "png" == "cover.png";
  }
}
