/**
 * The webhook server: the subscription handshake and the per-message
 * pipeline (read the first message, fetch and store the image, classify,
 * look up the top labels, aggregate, reply, clean up). Outbound messages,
 * external requests and file operations are recorded as a trace of effects;
 * the outcomes of the external calls are parameters.
 */
module Webhook {
  import opened Wrappers
  import Text
  import opened Nutrition

  // ---------------------------------------------------------------------------
  // GET /webhook: subscription handshake

  /** The three possible answers: 200 with the challenge, 403, 400. */
  datatype VerifyReply = Challenge(body: Option<string>) | Forbidden | BadRequest

  function StatusOf(r: VerifyReply): int {
    match r
    case Challenge(_) => 200
    case Forbidden => 403
    case BadRequest => 400
  }

  /** A query parameter is truthy when present and not empty. */
  predicate Truthy(p: Option<string>) {
    p.Some? && p.value != ""
  }

  /**
   * The handshake decision on `hub.mode`, `hub.verify_token`, `hub.challenge`
   * and the configured `VERIFY_TOKEN` (possibly unset).
   */
  function VerifyWebhook(mode: Option<string>, token: Option<string>, challenge: Option<string>,
                         verifyToken: Option<string>): (r: VerifyReply)
    ensures StatusOf(r) == 200 <==> mode == Some("subscribe") && Truthy(token) && token == verifyToken
    ensures r.Challenge? ==> r.body == challenge
    ensures StatusOf(r) == 403 <==> Truthy(mode) && Truthy(token) && !(mode == Some("subscribe") && token == verifyToken)
    ensures StatusOf(r) == 400 <==> !Truthy(mode) || !Truthy(token)
  {
    if Truthy(mode) && Truthy(token) then
      if mode.value == "subscribe" && token == verifyToken then Challenge(challenge) else Forbidden
    else BadRequest
  }

  // ---------------------------------------------------------------------------
  // POST /webhook: the inbound payload

  /** The `image` object of a message; its `id` may be missing. */
  datatype Image = Image(id: Option<string>)

  /** An inbound message; `image` is present only on some messages. */
  datatype Message = Message(from: string, msgType: string, image: Option<Image>)
  datatype Value = Value(messages: Option<seq<Message>>)
  datatype Change = Change(value: Option<Value>)
  datatype Entry = Entry(changes: Option<seq<Change>>)
  datatype Body = Body(entry: Option<seq<Entry>>)

  /**
   * What the handler finds in the body: no `entry`, an `entry` list so empty
   * that reading its first element's `changes` throws, no first message, or
   * the first message.
   */
  datatype Inbound = NoEntry | Unreadable | NoMessage | Incoming(msg: Message)

  function ReadInbound(body: Body): (r: Inbound)
    ensures r == NoEntry <==> body.entry.None?
    ensures r == Unreadable <==> body.entry == Some([])
    ensures r.Incoming? <==>
      body.entry.Some? && body.entry.value != [] &&
      var changes := body.entry.value[0].changes;
      changes.Some? && changes.value != [] && changes.value[0].value.Some? &&
      changes.value[0].value.value.messages.Some? && changes.value[0].value.value.messages.value != []
    ensures r.Incoming? ==> r.msg == body.entry.value[0].changes.value[0].value.value.messages.value[0]
  {
    match body.entry
    case None => NoEntry
    case Some(entries) =>
      if entries == [] then Unreadable
      else
        var changes := entries[0].changes;
        if changes.None? || changes.value == [] then NoMessage
        else match changes.value[0].value
          case None => NoMessage
          case Some(v) =>
            match v.messages
            case None => NoMessage
            case Some(ms) => if ms == [] then NoMessage else Incoming(ms[0])
  }

  // ---------------------------------------------------------------------------
  // Effects and external outcomes

  /** One observable step of a run. */
  datatype Effect =
    | Sent(to: string, text: string)
    | MediaInfoRequested(mediaId: string)
    | ImageRequested(url: string)
    | TempFileWritten
    | Classified
    | NutritionLookedUp(query: string)
    | TempFileDeleted

  /**
   * The path segment of the media request: `${mediaId}` renders a missing id
   * as "undefined", and the request is still sent.
   */
  function MediaPath(id: Option<string>): (r: string)
    ensures id.Some? ==> r == id.value
    ensures id.None? ==> r == "undefined"
  {
    id.GetOr("undefined")
  }

  /** The outcome of an HTTP request: it throws, or it answers with data. */
  datatype Fetch<T> = Failed | Fetched(data: T)

  const PromptText := "Olá! Envie uma foto do prato para eu analisar calorias e nutrientes 🍽️"
  const MediaUrlErrorText := "Erro ao obter URL da imagem. Tente novamente."
  const AnalysingText := "Recebi sua foto — analisando agora 🔎"
  const NotIdentifiedText := "Não consegui identificar alimentos. Tente uma foto mais nítida."

  /** The number of labels looked up. */
  const TopN: nat := 3

  // ---------------------------------------------------------------------------
  // Top-3 selection and aggregation

  /** `labels.slice(0, 3)`. */
  function Top(labels: seq<string>): (r: seq<string>)
    ensures |r| == if |labels| < TopN then |labels| else TopN
    ensures r <= labels
  {
    if |labels| < TopN then labels else labels[..TopN]
  }

  /** One kept item: a label and its nutrition estimate. */
  datatype Part = Part(name: string, nut: Macros)

  /** The part a label contributes: none when its lookup is `null`. */
  function PartOf(name: string, lookup: string -> Option<Macros>): seq<Part> {
    match lookup(name)
    case None => []
    case Some(n) => [Part(name, n)]
  }

  /** The labels whose lookup is not `null`, with their estimates, in label order. */
  function Kept(labels: seq<string>, lookup: string -> Option<Macros>): seq<Part> {
    if labels == [] then []
    else Kept(labels[..|labels| - 1], lookup) + PartOf(labels[|labels| - 1], lookup)
  }

  /** Keeping distributes over concatenation: the filter preserves order. */
  lemma {:induction false} KeptAppend(a: seq<string>, b: seq<string>, lookup: string -> Option<Macros>)
    ensures Kept(a + b, lookup) == Kept(a, lookup) + Kept(b, lookup)
  {
    if b == [] {
      assert a + b == a;
    } else {
      var b' := b[..|b| - 1];
      assert (a + b)[..|a + b| - 1] == a + b';
      assert (a + b)[|a + b| - 1] == b[|b| - 1];
      KeptAppend(a, b', lookup);
    }
  }

  /** Every kept part is one of the labels, carrying exactly that label's lookup result. */
  lemma {:induction false} KeptSound(labels: seq<string>, lookup: string -> Option<Macros>)
    ensures |Kept(labels, lookup)| <= |labels|
    ensures forall p :: p in Kept(labels, lookup) ==> p.name in labels && lookup(p.name) == Some(p.nut)
  {
    if labels != [] {
      var init := labels[..|labels| - 1];
      KeptSound(init, lookup);
      assert forall l :: l in init ==> l in labels;
    }
  }

  /** Every label whose lookup is not `null` is kept. */
  lemma {:induction false} KeptComplete(labels: seq<string>, lookup: string -> Option<Macros>, i: nat)
    requires i < |labels| && lookup(labels[i]).Some?
    ensures Part(labels[i], lookup(labels[i]).value) in Kept(labels, lookup)
  {
    var init := labels[..|labels| - 1];
    if i < |labels| - 1 {
      KeptComplete(init, lookup, i);
    }
  }

  /** When every lookup is `null` nothing is kept. */
  lemma {:induction false} KeptNoneFound(labels: seq<string>, lookup: string -> Option<Macros>)
    requires forall l :: l in labels ==> lookup(l).None?
    ensures Kept(labels, lookup) == []
  {
    if labels != [] {
      var init := labels[..|labels| - 1];
      assert forall l :: l in init ==> l in labels;
      KeptNoneFound(init, lookup);
    }
  }

  function Add(a: Macros, b: Macros): Macros {
    Macros(a.calories + b.calories, a.protein + b.protein, a.carbs + b.carbs, a.fat + b.fat)
  }

  /** The running total over the kept parts, starting from zero. */
  function SumOf(parts: seq<Part>): Macros {
    if parts == [] then Zero
    else Add(SumOf(parts[..|parts| - 1]), parts[|parts| - 1].nut)
  }

  /** The total of a concatenation is the elementwise sum of the totals. */
  lemma {:induction false} SumOfAppend(a: seq<Part>, b: seq<Part>)
    ensures SumOf(a + b) == Add(SumOf(a), SumOf(b))
  {
    if b == [] {
      assert a + b == a;
    } else {
      var b' := b[..|b| - 1];
      assert (a + b)[..|a + b| - 1] == a + b';
      assert (a + b)[|a + b| - 1] == b[|b| - 1];
      SumOfAppend(a, b');
    }
  }

  predicate NonNegative(m: Macros) {
    m.calories >= 0 && m.protein >= 0 && m.carbs >= 0 && m.fat >= 0
  }

  /** With non-negative estimates the total is never negative. */
  lemma {:induction false} SumOfNonNegative(parts: seq<Part>)
    requires forall p :: p in parts ==> NonNegative(p.nut)
    ensures NonNegative(SumOf(parts))
  {
    if parts != [] {
      var init := parts[..|parts| - 1];
      assert forall p :: p in init ==> p in parts;
      SumOfNonNegative(init);
    }
  }

  /** Two items of 100 kcal/5/10/2 g and 200 kcal/10/20/8 g total 300 kcal/15/30/10 g (in tenths). */
  lemma SumOfTwoItems()
    ensures SumOf([Part("a", Macros(1000, 50, 100, 20)), Part("b", Macros(2000, 100, 200, 80))])
         == Macros(3000, 150, 300, 100)
  {
  }

  /** The lookup trace of a list of labels: one request per label, in order. */
  function Lookups(labels: seq<string>): (r: seq<Effect>)
    ensures |r| == |labels|
    ensures forall i :: 0 <= i < |labels| ==> r[i] == NutritionLookedUp(labels[i])
  {
    if labels == [] then [] else Lookups(labels[..|labels| - 1]) + [NutritionLookedUp(labels[|labels| - 1])]
  }

  /** One more label of a prefix adds its part, if any, at the end. */
  lemma KeptStep(labels: seq<string>, i: nat, lookup: string -> Option<Macros>)
    requires i < |labels|
    ensures Kept(labels[..i + 1], lookup) == Kept(labels[..i], lookup) + PartOf(labels[i], lookup)
  {
    assert labels[..i + 1][..i] == labels[..i];
  }

  /** One more label of a prefix adds its lookup request at the end. */
  lemma LookupsStep(labels: seq<string>, i: nat)
    requires i < |labels|
    ensures Lookups(labels[..i + 1]) == Lookups(labels[..i]) + [NutritionLookedUp(labels[i])]
  {
    assert labels[..i + 1][..i] == labels[..i];
  }

  /** One more part adds its estimate to the total. */
  lemma SumOfSnoc(parts: seq<Part>, p: Part)
    ensures SumOf(parts + [p]) == Add(SumOf(parts), p.nut)
  {
    assert (parts + [p])[..|parts|] == parts;
  }

  /**
   * The aggregation loop: looks each label up in order, pushes the non-`null`
   * results to `parts` and adds them field by field into `total`.
   */
  method Aggregate(top: seq<string>, lookup: string -> Option<Macros>)
    returns (parts: seq<Part>, total: Macros, trace: seq<Effect>)
    ensures parts == Kept(top, lookup)
    ensures total == SumOf(parts)
    ensures trace == Lookups(top)
  {
    total := Macros(0, 0, 0, 0);
    parts := [];
    trace := [];
    for i := 0 to |top|
      invariant parts == Kept(top[..i], lookup)
      invariant total == SumOf(parts)
      invariant trace == Lookups(top[..i])
    {
      var name := top[i];
      KeptStep(top, i, lookup);
      LookupsStep(top, i);
      trace := trace + [NutritionLookedUp(name)];
      var nut := lookup(name);
      if nut.None? {
        continue;
      }
      SumOfSnoc(parts, Part(name, nut.value));
      parts := parts + [Part(name, nut.value)];
      total := total.(calories := total.calories + nut.value.calories);
      total := total.(protein := total.protein + nut.value.protein);
      total := total.(carbs := total.carbs + nut.value.carbs);
      total := total.(fat := total.fat + nut.value.fat);
    }
    assert top[..|top|] == top;
  }

  // ---------------------------------------------------------------------------
  // Reply formatting

  /** `capitalize`: the first character upper-cased, the empty string left as it is. */
  function Capitalize(s: string): (r: string)
    ensures |r| == |s|
    ensures s != [] ==> r[0] == Text.UpperChar(s[0]) && r[1..] == s[1..]
  {
    if s == [] then s else [Text.UpperChar(s[0])] + s[1..]
  }

  /** Capitalising twice is capitalising once. */
  lemma CapitalizeIdempotent(s: string)
    ensures Capitalize(Capitalize(s)) == Capitalize(s)
  {
  }

  const ReplyHeader := "🍽 *Análise do prato*\n\n"

  /** The pieces of a template, concatenated in order. */
  function Concat(pieces: seq<string>): string {
    if pieces == [] then "" else pieces[0] + Concat(pieces[1..])
  }

  /** The bullet block of one kept item, values as stored (one decimal). */
  function Block(p: Part): string {
    Concat(["• ", Capitalize(p.name), " (100 g)\n  - 🔥 ", Text.ShowTenths(p.nut.calories),
            " kcal\n  - 💪 ", Text.ShowTenths(p.nut.protein),
            " g proteína\n  - 🍞 ", Text.ShowTenths(p.nut.carbs),
            " g carboidrato\n  - 🥑 ", Text.ShowTenths(p.nut.fat), " g gordura\n\n"])
  }

  /** `Math.round` of an amount given in tenths: nearest integer, ties upwards. */
  function RoundTenths(t: int): (r: int)
    ensures 10 * r - 5 <= t < 10 * r + 5
  {
    (t + 5) / 10
  }

  /** The closing line with the four totals rounded to whole units. */
  function TotalsLine(total: Macros): string {
    Concat(["*Total aproximado:* 🔥 ", Text.ShowInt(RoundTenths(total.calories)),
            " kcal | 💪 ", Text.ShowInt(RoundTenths(total.protein)),
            " g | 🍞 ", Text.ShowInt(RoundTenths(total.carbs)),
            " g | 🥑 ", Text.ShowInt(RoundTenths(total.fat)),
            " g\n\n_Estimativas baseadas em 100g por item._"])
  }

  /** A template splits at any piece boundary. */
  lemma {:induction false} ConcatSplit(pieces: seq<string>, k: nat)
    requires k <= |pieces|
    ensures Concat(pieces) == Concat(pieces[..k]) + Concat(pieces[k..])
  {
    if k == 0 {
      assert pieces[..0] == [] && pieces[0..] == pieces;
    } else {
      ConcatSplit(pieces[1..], k - 1);
      assert pieces[1..][..k - 1] == pieces[..k][1..];
      assert pieces[1..][k - 1..] == pieces[k..];
    }
  }

  /** A three-piece template is the three pieces in order. */
  lemma ConcatThree(a: string, b: string, c: string)
    ensures Concat([a, b, c]) == a + b + c
  {
    assert [a, b, c][1..] == [b, c];
    assert [b, c][1..] == [c];
    assert [c][1..] == [];
    assert Concat([c]) == c + "" == c;
    assert Concat([b, c]) == b + c;
  }

  /**
   * A block opens with the bullet, the capitalised label and "(100 g)", and
   * closes with the fat line and a blank line; it shows nothing of a part but
   * its capitalised label and its four amounts.
   */
  lemma BlockFrame(p: Part, q: Part)
    ensures "• " + Capitalize(p.name) + " (100 g)\n  - 🔥 " <= Block(p)
    ensures var tail := " g gordura\n\n"; |tail| <= |Block(p)| && Block(p)[|Block(p)| - |tail|..] == tail
    ensures Capitalize(p.name) == Capitalize(q.name) && p.nut == q.nut ==> Block(p) == Block(q)
  {
    var pieces := ["• ", Capitalize(p.name), " (100 g)\n  - 🔥 ", Text.ShowTenths(p.nut.calories),
                   " kcal\n  - 💪 ", Text.ShowTenths(p.nut.protein),
                   " g proteína\n  - 🍞 ", Text.ShowTenths(p.nut.carbs),
                   " g carboidrato\n  - 🥑 ", Text.ShowTenths(p.nut.fat), " g gordura\n\n"];
    ConcatSplit(pieces, 3);
    ConcatSplit(pieces, 10);
    assert pieces[..3] == ["• ", Capitalize(p.name), " (100 g)\n  - 🔥 "];
    ConcatThree("• ", Capitalize(p.name), " (100 g)\n  - 🔥 ");
    assert pieces[10..] == [" g gordura\n\n"];
  }

  /**
   * The totals line opens with the label and the rounded calories and closes
   * with the note that estimates are per 100 g; it shows nothing of the total
   * but its four rounded amounts.
   */
  lemma TotalsLineFrame(a: Macros, b: Macros)
    ensures "*Total aproximado:* 🔥 " + Text.ShowInt(RoundTenths(a.calories)) + " kcal | 💪 " <= TotalsLine(a)
    ensures var tail := " g\n\n_Estimativas baseadas em 100g por item._";
      |tail| <= |TotalsLine(a)| && TotalsLine(a)[|TotalsLine(a)| - |tail|..] == tail
    ensures RoundTenths(a.calories) == RoundTenths(b.calories) && RoundTenths(a.protein) == RoundTenths(b.protein) &&
            RoundTenths(a.carbs) == RoundTenths(b.carbs) && RoundTenths(a.fat) == RoundTenths(b.fat) ==>
            TotalsLine(a) == TotalsLine(b)
  {
    var pieces := ["*Total aproximado:* 🔥 ", Text.ShowInt(RoundTenths(a.calories)),
                   " kcal | 💪 ", Text.ShowInt(RoundTenths(a.protein)),
                   " g | 🍞 ", Text.ShowInt(RoundTenths(a.carbs)),
                   " g | 🥑 ", Text.ShowInt(RoundTenths(a.fat)),
                   " g\n\n_Estimativas baseadas em 100g por item._"];
    ConcatSplit(pieces, 3);
    ConcatSplit(pieces, 8);
    assert pieces[..3] == ["*Total aproximado:* 🔥 ", Text.ShowInt(RoundTenths(a.calories)), " kcal | 💪 "];
    ConcatThree("*Total aproximado:* 🔥 ", Text.ShowInt(RoundTenths(a.calories)), " kcal | 💪 ");
    assert pieces[8..] == [" g\n\n_Estimativas baseadas em 100g por item._"];
  }

  /** The rendering of each element, concatenated in order. */
  function Join<T>(xs: seq<T>, render: T -> string): string {
    if xs == [] then "" else Join(xs[..|xs| - 1], render) + render(xs[|xs| - 1])
  }

  /** Joining a concatenation gives the concatenated joins. */
  lemma {:induction false} JoinAppend<T>(a: seq<T>, b: seq<T>, render: T -> string)
    ensures Join(a + b, render) == Join(a, render) + Join(b, render)
  {
    if b == [] {
      assert a + b == a;
    } else {
      var b' := b[..|b| - 1];
      assert (a + b)[..|a + b| - 1] == a + b';
      assert (a + b)[|a + b| - 1] == b[|b| - 1];
      JoinAppend(a, b', render);
    }
  }

  /** Joining one more element of a prefix appends its rendering. */
  lemma JoinPrefixStep<T>(xs: seq<T>, i: nat, render: T -> string)
    requires i < |xs|
    ensures Join(xs[..i + 1], render) == Join(xs[..i], render) + render(xs[i])
  {
    assert xs[..i + 1][..i] == xs[..i];
  }

  /** Appending to a concatenation regroups it. */
  lemma AppendAssoc<T>(x: seq<T>, y: seq<T>, z: seq<T>)
    ensures (x + y) + z == x + (y + z)
  {
  }

  /** The item blocks, in part order. */
  function Blocks(parts: seq<Part>): string {
    Join(parts, Block)
  }

  /** The whole reply: header, the blocks, the totals line. */
  function Reply(parts: seq<Part>, total: Macros): string {
    ReplyHeader + Blocks(parts) + TotalsLine(total)
  }

  /** Joining `a + [x] + b` places the rendering of `x` between those of `a` and `b`. */
  lemma JoinAround<T>(a: seq<T>, x: T, b: seq<T>, render: T -> string)
    ensures Join(a + [x] + b, render) == Join(a, render) + render(x) + Join(b, render)
  {
    JoinAppend(a + [x], b, render);
    JoinAppend(a, [x], render);
    assert [x][..0] == [];
  }

  /** The reply lists the blocks of the parts before `p`, then `p`'s block, then those after it. */
  lemma ReplyLayout(a: seq<Part>, p: Part, b: seq<Part>, total: Macros)
    ensures Reply(a + [p] + b, total) == ReplyHeader + (Blocks(a) + Block(p) + Blocks(b)) + TotalsLine(total)
  {
    JoinAround(a, p, b, Block);
  }

  /** When every lookup is `null` the reply is still sent: header and an all-zero totals line. */
  lemma {:induction false} ReplyWhenNothingFound(top: seq<string>, lookup: string -> Option<Macros>)
    requires forall l :: l in top ==> lookup(l).None?
    ensures Reply(Kept(top, lookup), SumOf(Kept(top, lookup))) == ReplyHeader + TotalsLine(Zero)
  {
    KeptNoneFound(top, lookup);
  }

  /** The rendering loop: `text +=` one block per part, then the totals line. */
  method RenderReply(parts: seq<Part>, total: Macros) returns (text: string)
    ensures text == Reply(parts, total)
  {
    text := ReplyHeader;
    for i := 0 to |parts|
      invariant text == ReplyHeader + Join(parts[..i], Block)
    {
      JoinPrefixStep(parts, i, Block);
      AppendAssoc(ReplyHeader, Join(parts[..i], Block), Block(parts[i]));
      text := text + Block(parts[i]);
    }
    assert parts[..|parts|] == parts;
    text := text + TotalsLine(total);
  }

  // ---------------------------------------------------------------------------
  // The POST handler

  /** The steps of an image run up to and including classification. */
  function Staged(from: string, mediaPath: string, url: string): seq<Effect> {
    [MediaInfoRequested(mediaPath), ImageRequested(url), TempFileWritten, Sent(from, AnalysingText), Classified]
  }

  /** `unlinkSync`: the deletion is recorded when it succeeds; when it throws, nothing is. */
  function Cleanup(unlinked: bool): seq<Effect> {
    if unlinked then [TempFileDeleted] else []
  }

  /** Every nutrition lookup in a trace is for one of `labels`. */
  predicate LooksUpOnly(effects: seq<Effect>, labels: seq<string>) {
    forall e :: e in effects && e.NutritionLookedUp? ==> e.query in labels
  }

  /** A run that stops before storing the image touches no file and looks nothing up. */
  lemma EarlyExitTrace(effects: seq<Effect>, labels: seq<string>)
    requires forall e :: e in effects ==> e.Sent? || e.MediaInfoRequested? || e.ImageRequested?
    ensures TempFileWritten !in effects && TempFileDeleted !in effects
    ensures LooksUpOnly(effects, labels)
  {
  }

  /**
   * A run that classified the image: the temporary file is written, it is
   * deleted exactly when `unlinkSync` succeeds, and lookups are for `top` only.
   */
  lemma ClassifiedRunTrace(from: string, mediaPath: string, url: string, top: seq<string>, text: string, unlinked: bool)
    ensures var t := Staged(from, mediaPath, url) + Lookups(top) + [Sent(from, text)] + Cleanup(unlinked);
      TempFileWritten in t && (TempFileDeleted in t <==> unlinked) && LooksUpOnly(t, top)
  {
  }

  /**
   * The handler for one webhook delivery. External outcomes: `mediaInfo` is
   * the media lookup (with `data.url`), `downloaded` whether the download
   * succeeded, `written` whether creating the directory and writing the
   * temporary file succeeded, `detected` what `detectFood` resolved to,
   * `lookup` what `getNutritionByQuery(label, 100, key)` resolves to, and
   * `unlinked` whether deleting the temporary file succeeded. Each request is
   * recorded when it is sent, whatever its outcome; the file operations are
   * recorded when they succeed. Any thrown error is caught and answered with
   * 500, sending nothing more.
   */
  method HandlePost(body: Body, mediaInfo: Fetch<Option<string>>, downloaded: bool, written: bool,
                    detected: seq<string>, lookup: string -> Option<Macros>, unlinked: bool)
    returns (status: int, effects: seq<Effect>)
    ensures ReadInbound(body) == NoEntry || ReadInbound(body) == NoMessage ==> status == 200 && effects == []
    ensures ReadInbound(body) == Unreadable ==> status == 500 && effects == []
    ensures ReadInbound(body).Incoming? && ReadInbound(body).msg.msgType != "image" ==>
      status == 200 && effects == [Sent(ReadInbound(body).msg.from, PromptText)]
    ensures ReadInbound(body).Incoming? && ReadInbound(body).msg.msgType == "image" ==>
      var from := ReadInbound(body).msg.from;
      var image := ReadInbound(body).msg.image;
      (image.None? ==> status == 500 && effects == []) &&
      (image.Some? ==>
        var path := MediaPath(image.value.id);
        (mediaInfo.Failed? ==> status == 500 && effects == [MediaInfoRequested(path)]) &&
        (mediaInfo.Fetched? && !Truthy(mediaInfo.data) ==>
          status == 200 && effects == [MediaInfoRequested(path), Sent(from, MediaUrlErrorText)]) &&
        (mediaInfo.Fetched? && Truthy(mediaInfo.data) ==>
          var url := mediaInfo.data.value;
          (!(downloaded && written) ==> status == 500 && effects == [MediaInfoRequested(path), ImageRequested(url)]) &&
          (downloaded && written && detected == [] ==>
            status == (if unlinked then 200 else 500) &&
            effects == Staged(from, path, url) + [Sent(from, NotIdentifiedText)] + Cleanup(unlinked)) &&
          (downloaded && written && detected != [] ==>
            var parts := Kept(Top(detected), lookup);
            status == (if unlinked then 200 else 500) &&
            effects == Staged(from, path, url) + Lookups(Top(detected)) +
                       [Sent(from, Reply(parts, SumOf(parts)))] + Cleanup(unlinked))))
    ensures TempFileDeleted in effects <==> TempFileWritten in effects && unlinked
    ensures TempFileWritten in effects && TempFileDeleted !in effects ==> status == 500
    ensures LooksUpOnly(effects, if detected == [] then [] else Top(detected))
    ensures status == 200 || status == 500
  {
    effects := [];
    ghost var allowed := if detected == [] then [] else Top(detected);
    var inbound := ReadInbound(body);
    if inbound.NoEntry? || inbound.NoMessage? {
      EarlyExitTrace(effects, allowed);
      return 200, effects;
    }
    if inbound.Unreadable? {
      EarlyExitTrace(effects, allowed);
      return 500, effects;
    }
    var message := inbound.msg;
    var from := message.from;
    if message.msgType != "image" {
      effects := effects + [Sent(from, PromptText)];
      EarlyExitTrace(effects, allowed);
      return 200, effects;
    }
    if message.image.None? {
      EarlyExitTrace(effects, allowed);
      return 500, effects;
    }
    var mediaPath := MediaPath(message.image.value.id);

    // 1) media URL
    effects := effects + [MediaInfoRequested(mediaPath)];
    if mediaInfo.Failed? {
      EarlyExitTrace(effects, allowed);
      return 500, effects;
    }
    var mediaUrl := mediaInfo.data;
    if !Truthy(mediaUrl) {
      effects := effects + [Sent(from, MediaUrlErrorText)];
      EarlyExitTrace(effects, allowed);
      return 200, effects;
    }

    // 2) authenticated download, stored as a temporary file
    effects := effects + [ImageRequested(mediaUrl.value)];
    if !downloaded || !written {
      EarlyExitTrace(effects, allowed);
      return 500, effects;
    }

    // 3) classification
    var staged := Staged(from, mediaPath, mediaUrl.value);
    var labels := detected;
    if labels == [] {
      ClassifiedRunTrace(from, mediaPath, mediaUrl.value, [], NotIdentifiedText, unlinked);
      effects := staged + Lookups([]) + [Sent(from, NotIdentifiedText)] + Cleanup(unlinked);
      assert Lookups([]) == [];
      return if unlinked then 200 else 500, effects;
    }

    // 4) nutrition of the top labels, then the reply
    var top := Top(labels);
    var parts, total, lookups := Aggregate(top, lookup);
    var text := RenderReply(parts, total);

    // cleanup
    ClassifiedRunTrace(from, mediaPath, mediaUrl.value, top, text, unlinked);
    effects := staged + lookups + [Sent(from, text)] + Cleanup(unlinked);
    status := if unlinked then 200 else 500;
  }
}
