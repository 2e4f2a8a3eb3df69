/**
 * The menu extraction service (services/geminiService.ts): what happens to the
 * text the Gemini model returns. An optional Markdown code fence is removed,
 * the text is parsed, the two top-level fields are checked, every category and
 * item is coerced to the document shape with fixed French defaults and given a
 * fresh identifier, and every failure becomes a user-facing message.
 *
 * The request itself and `JSON.parse` are foreign calls: the service's answer is
 * an `ApiResponse` and the parser a function parameter. The identifier source is
 * `gen`: `gen(k)` is what the `k`-th call of `uuidv4` in this extraction returns.
 */
module GeminiService {
  import opened Wrappers
  import opened Types
  import opened Text
  import opened Json

  // ---------------------------------------------------------------- messages

  const MissingKeyMessage: string := "La clé API Gemini (process.env.API_KEY) n'est pas configurée."
  const ShapeErrorMessage: string := "La structure des données du menu reçue est incorrecte."
  const ParseFailurePrefix: string := "Impossible d'analyser la réponse JSON du serveur: "
  const ContentLabel: string := ". Contenu reçu: "
  const SnippetLength: nat := 500
  const PermissionDeniedMessage: string :=
    "Erreur d'API Gemini: Permission refusée. Vérifiez votre clé API et les autorisations du modèle."
  const InvalidKeyMessage: string := "Erreur d'API Gemini: Clé API non valide. Veuillez vérifier votre clé API."
  const BlockedPrefix: string := "La requête a été bloquée par l'API Gemini. Raison: "
  const BlockedMessageLabel: string := ". Message: "
  const NoBlockMessage: string := "Aucun message spécifique."
  const GenericPrefix: string := "Erreur de l'API Gemini: "
  const UnknownApiError: string := "Une erreur inconnue est survenue avec l'API Gemini."

  /** The defaults that replace a missing or non-string field. */
  const UnknownCategoryName: string := "Catégorie inconnue"
  const UnknownItemName: string := "Article inconnu"
  const MissingPrice: string := "N/A"

  // ------------------------------------------------------------ code fence

  const Fence: string := "```"
  const JsonTag: string := "json"

  /**
   * The capture group of `/^```(?:json)?\s*\n?(.*?)\n?\s*```$/s`, or `None` when
   * the text does not match. The text must start and end with three backticks
   * that do not overlap; an optional `json` tag and the white space after it
   * are skipped (the greedy `\s*`), and the lazy group stops before the trailing
   * white space (`\n?\s*` matches any run of white space).
   */
  function FenceCapture(text: string): (r: Option<string>)
    ensures r.Some? <==> |text| >= 6 && StartsWith(text, Fence) && EndsWith(text, Fence)
  {
    if |text| >= 6 && StartsWith(text, Fence) && EndsWith(text, Fence) then
      var inner := text[3..|text| - 3];
      Some(Trim(if StartsWith(inner, JsonTag) then inner[4..] else inner))
    else
      None
  }

  /** The text handed to `JSON.parse`: the trimmed capture when it is non-empty, else the trimmed text. */
  function JsonText(text: string): (r: string)
    ensures r == [] || (!IsWhitespace(r[0]) && !IsWhitespace(r[|r| - 1]))
    ensures FenceCapture(text).Some? && FenceCapture(text).value != [] ==> r == FenceCapture(text).value
    ensures FenceCapture(text) == None || FenceCapture(text) == Some([]) ==> r == Trim(text)
  {
    match FenceCapture(text)
    case Some(group) =>
      if group != [] then Trim(group) else Trim(text)
    case None =>
      Trim(text)
  }

  /** The capture of a fenced text is the trimmed inner text, its `json` tag skipped. */
  lemma CaptureOfFenced(inner: string)
    ensures FenceCapture(Fence + inner + Fence)
            == Some(Trim(if StartsWith(inner, JsonTag) then inner[4..] else inner))
  {
    var text := Fence + inner + Fence;
    assert text[..3] == Fence && text[|text| - 3..] == Fence && text[3..|text| - 3] == inner;
  }

  /** A non-empty capture that is already trimmed is the text handed to the parser. */
  lemma JsonTextOfCapture(text: string, body: string)
    requires FenceCapture(text) == Some(body) && body != []
    requires Trim(body) == body
    ensures JsonText(text) == body
  {
  }

  /** A text without a fence is only trimmed. */
  lemma UnfencedTextIsTrimmed(text: string)
    requires !StartsWith(text, Fence) || !EndsWith(text, Fence)
    ensures JsonText(text) == Trim(text)
  {
  }

  /**
   * Wrapping a body in a ```` ```json ```` fence and stripping it gives the body
   * back, for any body that is non-empty and has no white space at its ends.
   */
  lemma StripJsonFence(body: string)
    requires body != [] && !IsWhitespace(body[0]) && !IsWhitespace(body[|body| - 1])
    ensures JsonText(Fence + JsonTag + "\n" + body + "\n" + Fence) == body
  {
    var padded := "\n" + body + "\n";
    var inner := JsonTag + padded;
    assert Fence + JsonTag + "\n" + body + "\n" + Fence == Fence + inner + Fence;
    assert StartsWith(inner, JsonTag) && inner[4..] == padded;
    CaptureOfFenced(inner);
    TrimNewlines(body);
    TrimOfTrimmed(body);
    JsonTextOfCapture(Fence + inner + Fence, body);
  }

  /** The same for a bare ```` ``` ```` fence. */
  lemma StripBareFence(body: string)
    requires body != [] && !IsWhitespace(body[0]) && !IsWhitespace(body[|body| - 1])
    ensures JsonText(Fence + "\n" + body + "\n" + Fence) == body
  {
    var inner := "\n" + body + "\n";
    assert Fence + "\n" + body + "\n" + Fence == Fence + inner + Fence;
    assert !StartsWith(inner, JsonTag) by { assert inner[0] == '\n'; }
    CaptureOfFenced(inner);
    TrimNewlines(body);
    TrimOfTrimmed(body);
    JsonTextOfCapture(Fence + inner + Fence, body);
  }

  // ----------------------------------------------------------- normalisation

  /** What `JSON.parse` does with a text: a value, or a `SyntaxError` with its message. */
  datatype Parsed = Parsed(value: Json) | SyntaxError(message: string)

  /** The errors thrown inside the parsing block, before they are wrapped. */
  datatype InnerError =
    | ParseError(message: string)   // JSON.parse's SyntaxError
    | ShapeError                    // the two top-level fields have the wrong type
    | NullRead(key: string)         // a property read on `null` (a TypeError)

  /** `parseError.message`; the TypeError text is the one V8 produces. */
  function InnerMessage(e: InnerError): string {
    match e
    case ParseError(m) => m
    case ShapeError => ShapeErrorMessage
    case NullRead(key) => "Cannot read properties of null (reading '" + key + "')"
  }

  /** `typeof r === 'string' ? r : default`. */
  function StringOr(r: Read, default: string): (s: string)
    ensures IsString(r) ==> s == r.v.s
    ensures !IsString(r) ==> s == default
  {
    if IsString(r) then r.v.s else default
  }

  /** The item a non-null JSON value becomes, with identifier `id`. */
  function ItemOf(j: Json, id: Id): (it: MenuItem)
    requires !j.JNull?
    ensures it.id == id
    ensures IsString(Get(j, "name")) ==> it.name == Get(j, "name").v.s
    ensures !IsString(Get(j, "name")) ==> it.name == UnknownItemName
    ensures it.description.Some?
    ensures IsString(Get(j, "description")) ==> it.description.value == Get(j, "description").v.s
    ensures !IsString(Get(j, "description")) ==> it.description.value == ""
    ensures IsString(Get(j, "price")) ==> it.price == Get(j, "price").v.s
    ensures !IsString(Get(j, "price")) ==> it.price == MissingPrice
  {
    MenuItem(id, StringOr(Get(j, "name"), UnknownItemName),
             Some(StringOr(Get(j, "description"), "")), StringOr(Get(j, "price"), MissingPrice))
  }

  /** `Array.isArray(category.items) ? category.items : []`. */
  function ItemsOf(c: Json): (items: seq<Json>)
    requires !c.JNull?
    ensures IsArray(Get(c, "items")) ==> items == Get(c, "items").v.elems
    ensures !IsArray(Get(c, "items")) ==> items == []
  {
    if IsArray(Get(c, "items")) then Get(c, "items").v.elems else []
  }

  /** A category value the normaliser accepts: not `null`, and none of its items `null`. */
  predicate Normalizable(c: Json) {
    !c.JNull? && forall k :: 0 <= k < |ItemsOf(c)| ==> !ItemsOf(c)[k].JNull?
  }

  /** How many identifiers a category consumes: its own and one per item. */
  function IdsUsed(c: Json): nat {
    if c.JNull? then 0 else 1 + |ItemsOf(c)|
  }

  /** How many identifiers a list of categories consumes. */
  function IdsUsedBy(cats: seq<Json>): nat {
    if cats == [] then 0 else IdsUsed(cats[0]) + IdsUsedBy(cats[1..])
  }

  /** Every category value of the list is accepted. */
  predicate AllNormalizable(cats: seq<Json>) {
    forall k :: 0 <= k < |cats| ==> Normalizable(cats[k])
  }

  /**
   * The category an accepted value becomes: its own identifier is drawn first
   * (`gen(next)`), then one per item, in order, from `gen(next + 1)` on.
   */
  function CategoryOf(c: Json, gen: nat -> Id, next: nat): (cat: MenuCategory)
    requires Normalizable(c)
  {
    var items := ItemsOf(c);
    MenuCategory(gen(next), StringOr(Get(c, "categoryName"), UnknownCategoryName),
                 seq(|items|, k requires 0 <= k < |items| => ItemOf(items[k], gen(next + 1 + k))))
  }

  /**
   * An accepted category value gets the next identifier, its name when that is
   * a string and the default otherwise, and one item per element of its item
   * array (none when `items` is not an array), each with the following identifier.
   */
  lemma CategoryCoercion(c: Json, gen: nat -> Id, next: nat)
    requires Normalizable(c)
    ensures var cat := CategoryOf(c, gen, next);
            && cat.id == gen(next)
            && (IsString(Get(c, "categoryName")) ==> cat.categoryName == Get(c, "categoryName").v.s)
            && (!IsString(Get(c, "categoryName")) ==> cat.categoryName == UnknownCategoryName)
            && (IsArray(Get(c, "items")) ==> |cat.items| == |Get(c, "items").v.elems|)
            && (!IsArray(Get(c, "items")) ==> cat.items == [])
            && forall k :: 0 <= k < |cat.items| ==> cat.items[k] == ItemOf(ItemsOf(c)[k], gen(next + 1 + k))
  {
  }

  /**
   * The TypeError a rejected category value throws: reading `categoryName` of
   * a `null` category, or else `name` of its first `null` item.
   */
  function CategoryError(c: Json): (e: InnerError)
    requires !Normalizable(c)
    ensures c.JNull? <==> e == NullRead("categoryName")
    ensures !c.JNull? <==> e == NullRead("name")
  {
    if c.JNull? then NullRead("categoryName") else NullRead("name")
  }

  /** The categories an accepted list becomes, each drawing its identifiers after the previous one's. */
  function NormalizeAll(cats: seq<Json>, gen: nat -> Id, next: nat): (r: seq<MenuCategory>)
    requires AllNormalizable(cats)
    ensures |r| == |cats|
  {
    if cats == [] then []
    else
      assert AllNormalizable(cats[1..]) by {
        forall k | 0 <= k < |cats| - 1 ensures Normalizable(cats[1..][k]) {
          assert cats[1..][k] == cats[k + 1];
        }
      }
      [CategoryOf(cats[0], gen, next)] + NormalizeAll(cats[1..], gen, next + IdsUsed(cats[0]))
  }

  /** One step of `NormalizeAll`: the first category, then the rest from the next free identifier. */
  lemma NormalizeAllCons(cats: seq<Json>, gen: nat -> Id, next: nat)
    requires cats != [] && AllNormalizable(cats)
    ensures AllNormalizable(cats[1..])
    ensures NormalizeAll(cats, gen, next)
            == [CategoryOf(cats[0], gen, next)] + NormalizeAll(cats[1..], gen, next + IdsUsed(cats[0]))
  {
  }

  /** The error of the first rejected category value, the one the map stops at. */
  function FirstError(cats: seq<Json>): (e: InnerError)
    requires !AllNormalizable(cats)
    ensures e.NullRead?
  {
    var k :| 0 <= k < |cats| && !Normalizable(cats[k]);
    if !Normalizable(cats[0]) then CategoryError(cats[0])
    else
      assert !AllNormalizable(cats[1..]) by {
        assert cats[1..][k - 1] == cats[k];
      }
      FirstError(cats[1..])
  }

  /**
   * `parsedData.categories.map(...)`: the categories in order when no value
   * makes the callback read a property of `null`; otherwise the TypeError of
   * the first such read, in the order the map performs them.
   */
  function NormalizeCategories(cats: seq<Json>, gen: nat -> Id, next: nat): (r: Result<seq<MenuCategory>, InnerError>)
    ensures r.Ok? <==> AllNormalizable(cats)
    ensures r.Ok? ==> |r.value| == |cats|
    ensures r.Err? ==> r.error.NullRead?
    ensures (cats != [] && cats[0].JNull?) ==> r == Err(NullRead("categoryName"))
  {
    if AllNormalizable(cats) then Ok(NormalizeAll(cats, gen, next)) else Err(FirstError(cats))
  }

  /** `n` consecutive identifiers of the source, from its `from`-th call on. */
  function Draws(gen: nat -> Id, from: nat, n: nat): (ids: seq<Id>)
    ensures |ids| == n
    ensures forall j :: 0 <= j < n ==> ids[j] == gen(from + j)
  {
    seq(n, j requires 0 <= j < n => gen(from + j))
  }

  lemma DrawsSplit(gen: nat -> Id, from: nat, m: nat, n: nat)
    ensures Draws(gen, from, m + n) == Draws(gen, from, m) + Draws(gen, from + m, n)
  {
  }

  /** The identifiers stamped on one category are the next `IdsUsed(c)` identifiers of the source. */
  lemma CategoryIdsAreDraws(c: Json, gen: nat -> Id, next: nat)
    requires Normalizable(c)
    ensures [CategoryOf(c, gen, next).id] + ItemIds(CategoryOf(c, gen, next).items) == Draws(gen, next, IdsUsed(c))
  {
    var cat := CategoryOf(c, gen, next);
    var ids := [cat.id] + ItemIds(cat.items);
    assert |ids| == IdsUsed(c);
    forall j | 0 <= j < |ids| ensures ids[j] == gen(next + j) {
      if j > 0 {
        assert ids[j] == cat.items[j - 1].id;
      }
    }
  }

  /**
   * Every identifier of the normalised categories, in document order, is a new
   * draw from the source: the `IdsUsedBy(cats)` identifiers from the `next`-th on.
   * No identifier of the response survives.
   */
  lemma {:induction false} NormalizedIdsAreDraws(cats: seq<Json>, gen: nat -> Id, next: nat)
    requires AllNormalizable(cats)
    ensures DocumentIds(NormalizeAll(cats, gen, next)) == Draws(gen, next, IdsUsedBy(cats))
    decreases |cats|
  {
    if cats != [] {
      NormalizedIdsAreDraws(cats[1..], gen, next + IdsUsed(cats[0]));
      IdsStep(cats, gen, next);
    }
  }

  /** The inductive step: the first category's identifiers, then those of the rest. */
  lemma IdsStep(cats: seq<Json>, gen: nat -> Id, next: nat)
    requires cats != [] && AllNormalizable(cats) && AllNormalizable(cats[1..])
    requires DocumentIds(NormalizeAll(cats[1..], gen, next + IdsUsed(cats[0])))
             == Draws(gen, next + IdsUsed(cats[0]), IdsUsedBy(cats[1..]))
    ensures DocumentIds(NormalizeAll(cats, gen, next)) == Draws(gen, next, IdsUsedBy(cats))
  {
    var hd, tl := cats[0], cats[1..];
    var first, rest := CategoryOf(hd, gen, next), NormalizeAll(tl, gen, next + IdsUsed(hd));
    NormalizeAllCons(cats, gen, next);
    CategoryIdsAreDraws(hd, gen, next);
    IdsJoin(first, rest, gen, next, IdsUsed(hd), IdsUsedBy(tl));
    assert DocumentIds(NormalizeAll(cats, gen, next)) == DocumentIds([first] + rest);
    assert IdsUsedBy(cats) == IdsUsed(hd) + IdsUsedBy(tl);
  }

  /** Joining the identifiers of a first category and of the rest. */
  lemma IdsJoin(first: MenuCategory, rest: seq<MenuCategory>, gen: nat -> Id, next: nat, u0: nat, u1: nat)
    requires [first.id] + ItemIds(first.items) == Draws(gen, next, u0)
    requires DocumentIds(rest) == Draws(gen, next + u0, u1)
    ensures DocumentIds([first] + rest) == Draws(gen, next, u0 + u1)
  {
    DocumentIdsCons(first, rest);
    DrawsSplit(gen, next, u0, u1);
  }

  lemma DocumentIdsCons(first: MenuCategory, rest: seq<MenuCategory>)
    ensures DocumentIds([first] + rest) == [first.id] + ItemIds(first.items) + DocumentIds(rest)
  {
    assert ([first] + rest)[1..] == rest;
  }

  /** What an accepted category value holds apart from identifiers: each field coerced on its own. */
  function CategoryValue(c: Json): (cat: MenuCategory)
    requires Normalizable(c)
  {
    var items := ItemsOf(c);
    MenuCategory("", StringOr(Get(c, "categoryName"), UnknownCategoryName),
                 seq(|items|, k requires 0 <= k < |items| => ItemOf(items[k], "")))
  }

  /** The identifier-free content of a list of accepted category values. */
  function ValuesContent(cats: seq<Json>): (r: seq<MenuCategory>)
    requires AllNormalizable(cats)
    ensures |r| == |cats|
  {
    if cats == [] then []
    else
      assert AllNormalizable(cats[1..]) by {
        forall k | 0 <= k < |cats| - 1 ensures Normalizable(cats[1..][k]) {
          assert cats[1..][k] == cats[k + 1];
        }
      }
      [CategoryValue(cats[0])] + ValuesContent(cats[1..])
  }

  /** One accepted category, identifiers blanked out, is its value's coercion. */
  lemma CategoryContentIsValue(c: Json, gen: nat -> Id, next: nat)
    requires Normalizable(c)
    ensures CategoryContent(CategoryOf(c, gen, next)) == CategoryValue(c)
  {
    assert ItemsContent(CategoryOf(c, gen, next).items) == CategoryValue(c).items;
  }

  /**
   * Apart from identifiers, normalisation is a per-value coercion: with every
   * identifier blanked out, the categories are the values' coercions, whatever
   * the identifier source and however many identifiers it has already given.
   */
  lemma {:induction false} NormalizedContentIsValues(cats: seq<Json>, gen: nat -> Id, next: nat)
    requires AllNormalizable(cats)
    ensures Content(NormalizeAll(cats, gen, next)) == ValuesContent(cats)
    decreases |cats|
  {
    if cats != [] {
      var rest := NormalizeAll(cats[1..], gen, next + IdsUsed(cats[0]));
      NormalizeAllCons(cats, gen, next);
      NormalizedContentIsValues(cats[1..], gen, next + IdsUsed(cats[0]));
      ContentCons(CategoryOf(cats[0], gen, next), rest);
      CategoryContentIsValue(cats[0], gen, next);
    }
  }

  /** Two identifier sources give the same normalised categories up to identifiers. */
  lemma NormalizedContent(cats: seq<Json>, gen1: nat -> Id, n1: nat, gen2: nat -> Id, n2: nat)
    requires AllNormalizable(cats)
    ensures Content(NormalizeAll(cats, gen1, n1)) == Content(NormalizeAll(cats, gen2, n2))
  {
    NormalizedContentIsValues(cats, gen1, n1);
    NormalizedContentIsValues(cats, gen2, n2);
  }

  /** The document built from a parsed value, or the error the parsing block throws. */
  function NormalizeDocument(parsed: Json, gen: nat -> Id): (r: Result<MenuData, InnerError>)
    ensures parsed.JNull? ==> r == Err(NullRead("restaurantName"))
    ensures (!parsed.JNull? && (!IsString(Get(parsed, "restaurantName")) || !IsArray(Get(parsed, "categories"))))
              ==> r == Err(ShapeError)
    ensures r.Ok? <==> (&& !parsed.JNull?
                        && IsString(Get(parsed, "restaurantName")) && IsArray(Get(parsed, "categories"))
                        && AllNormalizable(Get(parsed, "categories").v.elems))
    ensures r.Ok? ==> r.value.restaurantName == Get(parsed, "restaurantName").v.s
    ensures r.Ok? ==> |r.value.categories| == |Get(parsed, "categories").v.elems|
  {
    if parsed.JNull? then Err(NullRead("restaurantName"))
    else if !IsString(Get(parsed, "restaurantName")) || !IsArray(Get(parsed, "categories")) then Err(ShapeError)
    else
      match NormalizeCategories(Get(parsed, "categories").v.elems, gen, 0)
      case Err(e) => Err(e)
      case Ok(cats) => Ok(MenuData(Get(parsed, "restaurantName").v.s, cats))
  }

  /**
   * When the identifiers drawn for one document do not repeat (the code relies
   * on `Math.random` for this; it is a hypothesis here, about those draws only),
   * a normalised document satisfies the identifier invariant.
   */
  lemma NormalizedIdsUnique(parsed: Json, gen: nat -> Id)
    requires NormalizeDocument(parsed, gen).Ok?
    requires Distinct(Draws(gen, 0, IdsUsedBy(Get(parsed, "categories").v.elems)))
    ensures UniqueIds(NormalizeDocument(parsed, gen).value)
  {
    var cats := Get(parsed, "categories").v.elems;
    NormalizedIdsAreDraws(cats, gen, 0);
    DistinctDocumentIds(NormalizeDocument(parsed, gen).value);
  }

  // ------------------------------------------------------------------ errors

  /** The error the outer handler catches: its message and the API's block reason ("" when absent). */
  datatype ApiError = ApiError(message: string, blockReason: string, blockReasonMessage: string)

  /** What the request returns: a text, a response without text, or a thrown error. */
  datatype ApiResponse = Text(text: string) | NoText | Thrown(error: ApiError)

  /**
   * The outer handler: the message of the error it throws in turn. The checks
   * run in a fixed order: 'permission denied' in the message, then
   * 'API key not valid', then a block reason, then the generic prefix.
   */
  function Classify(e: ApiError): (m: string)
    ensures Includes(e.message, "permission denied") ==> m == PermissionDeniedMessage
    ensures (!Includes(e.message, "permission denied") && Includes(e.message, "API key not valid"))
              ==> m == InvalidKeyMessage
    ensures (!Includes(e.message, "permission denied") && !Includes(e.message, "API key not valid")
               && e.blockReason != "")
              ==> m == BlockedPrefix + e.blockReason + BlockedMessageLabel
                       + (if e.blockReasonMessage != "" then e.blockReasonMessage else NoBlockMessage)
    ensures (!Includes(e.message, "permission denied") && !Includes(e.message, "API key not valid")
               && e.blockReason == "")
              ==> m == GenericPrefix + (if e.message != "" then e.message else UnknownApiError)
  {
    if e.message != "" && Includes(e.message, "permission denied") then
      PermissionDeniedMessage
    else if e.message != "" && Includes(e.message, "API key not valid") then
      InvalidKeyMessage
    else if e.blockReason != "" then
      var tail := if e.blockReasonMessage != "" then e.blockReasonMessage else NoBlockMessage;
      BlockedPrefix + e.blockReason + BlockedMessageLabel + tail
    else
      GenericPrefix + (if e.message != "" then e.message else UnknownApiError)
  }

  /** The message the parsing block's handler throws: the cause and the first 500 characters of the text. */
  function FormatFailure(e: InnerError, jsonText: string): (m: string)
    ensures StartsWith(m, ParseFailurePrefix + InnerMessage(e) + ContentLabel)
    ensures var quoted := m[|ParseFailurePrefix + InnerMessage(e) + ContentLabel|..];
            && StartsWith(jsonText, quoted)
            && |quoted| == if |jsonText| <= SnippetLength then |jsonText| else SnippetLength
  {
    var head := ParseFailurePrefix + InnerMessage(e) + ContentLabel;
    var r := head + Take(jsonText, SnippetLength);
    assert r[..|head|] == head && r[|head|..] == Take(jsonText, SnippetLength);
    r
  }

  /** `JSON.parse` followed by normalisation. */
  function ParseAndNormalize(parsed: Parsed, gen: nat -> Id): Result<MenuData, InnerError> {
    match parsed
    case SyntaxError(m) => Err(ParseError(m))
    case Parsed(v) => NormalizeDocument(v, gen)
  }

  /** TypeError of `jsonText.match` when the response carries no text (V8 wording). */
  const NoTextMessage: string := "Cannot read properties of undefined (reading 'match')"

  /** `extractMenuData`: the document, or the message of the error it throws. */
  function ExtractMenuData(apiKeyConfigured: bool, response: ApiResponse, parse: string -> Parsed, gen: nat -> Id)
    : (r: Result<MenuData, string>)
    ensures !apiKeyConfigured ==> r == Err(MissingKeyMessage)
    ensures r.Ok? <==> apiKeyConfigured && response.Text? && ParseAndNormalize(parse(JsonText(response.text)), gen).Ok?
    ensures r.Ok? ==> ParseAndNormalize(parse(JsonText(response.text)), gen) == Ok(r.value)
    ensures apiKeyConfigured && response.Thrown? ==> r == Err(Classify(response.error))
  {
    if !apiKeyConfigured then Err(MissingKeyMessage)
    else
      match response
      case Thrown(e) => Err(Classify(e))
      case NoText => Err(Classify(ApiError(NoTextMessage, "", "")))
      case Text(text) =>
        var jsonText := JsonText(text);
        match ParseAndNormalize(parse(jsonText), gen)
        case Ok(d) => Ok(d)
        case Err(e) => Err(Classify(ApiError(FormatFailure(e, jsonText), "", "")))
  }

  /**
   * A response whose text cannot be parsed, or whose top-level shape is wrong,
   * yields no document; its message carries the cause and at most the first
   * 500 characters of the text, behind the generic prefix when no keyword of
   * the classification occurs in it.
   */
  lemma FormatErrorMessage(response: ApiResponse, parse: string -> Parsed, gen: nat -> Id)
    requires response.Text?
    requires ParseAndNormalize(parse(JsonText(response.text)), gen).Err?
    ensures ExtractMenuData(true, response, parse, gen).Err?
    ensures var e := ParseAndNormalize(parse(JsonText(response.text)), gen).error;
            var m := FormatFailure(e, JsonText(response.text));
            !Includes(m, "permission denied") && !Includes(m, "API key not valid")
            ==> ExtractMenuData(true, response, parse, gen).error == GenericPrefix + m
  {
  }

  /**
   * The classification runs on the wrapped message, which quotes the response:
   * a malformed response whose first 500 characters mention 'permission denied'
   * is reported to the user as a permission error.
   */
  lemma QuotedKeywordClassifiesFormatError(response: ApiResponse, parse: string -> Parsed, gen: nat -> Id)
    requires response.Text?
    requires ParseAndNormalize(parse(JsonText(response.text)), gen).Err?
    requires Includes(Take(JsonText(response.text), SnippetLength), "permission denied")
    ensures ExtractMenuData(true, response, parse, gen) == Err(PermissionDeniedMessage)
  {
    var jsonText := JsonText(response.text);
    var e := ParseAndNormalize(parse(jsonText), gen).error;
    var head := ParseFailurePrefix + InnerMessage(e) + ContentLabel;
    var m := FormatFailure(e, jsonText);
    assert m == head + Take(jsonText, SnippetLength) by {
      assert m == m[..|head|] + m[|head|..];
    }
    IncludesInSuffix(head, Take(jsonText, SnippetLength), "permission denied");
  }

  // ------------------------------------------------------ renormalisation

  /** The JSON form of an item (`JSON.stringify` then `JSON.parse`): an absent description is omitted. */
  function ItemToJson(it: MenuItem): Json {
    var fields := map["id" := JString(it.id), "name" := JString(it.name), "price" := JString(it.price)];
    JObject(if it.description.Some? then fields["description" := JString(it.description.value)] else fields)
  }

  function CategoryToJson(c: MenuCategory): Json {
    JObject(map["id" := JString(c.id), "categoryName" := JString(c.categoryName),
                "items" := JArray(seq(|c.items|, k requires 0 <= k < |c.items| => ItemToJson(c.items[k])))])
  }

  function CategoriesToJson(cats: seq<MenuCategory>): seq<Json> {
    seq(|cats|, k requires 0 <= k < |cats| => CategoryToJson(cats[k]))
  }

  /** The JSON form of a document. */
  function ToJson(d: MenuData): Json {
    JObject(map["restaurantName" := JString(d.restaurantName), "categories" := JArray(CategoriesToJson(d.categories))])
  }

  /** Every item of the categories carries a description. */
  predicate DescriptionsPresent(cats: seq<MenuCategory>) {
    forall k, j :: 0 <= k < |cats| && 0 <= j < |cats[k].items| ==> cats[k].items[j].description.Some?
  }

  /** The JSON form of a category with described items is accepted and coerces back to its content. */
  lemma CategoryRoundTrip(c: MenuCategory)
    requires forall j :: 0 <= j < |c.items| ==> c.items[j].description.Some?
    ensures Normalizable(CategoryToJson(c))
    ensures CategoryValue(CategoryToJson(c)) == CategoryContent(c)
  {
    var j := CategoryToJson(c);
    assert ItemsOf(j) == seq(|c.items|, k requires 0 <= k < |c.items| => ItemToJson(c.items[k]));
    var items := CategoryValue(j).items;
    forall k | 0 <= k < |c.items| ensures items[k] == ItemContent(c.items[k]) {
      var it := c.items[k];
      assert Get(ItemToJson(it), "name") == Value(JString(it.name));
      assert Get(ItemToJson(it), "price") == Value(JString(it.price));
      assert Get(ItemToJson(it), "description") == Value(JString(it.description.value));
    }
    assert items == ItemsContent(c.items);
  }

  /** The JSON form of categories with described items is accepted and coerces back to their content. */
  lemma {:induction false} SerializedValues(cats: seq<MenuCategory>)
    requires DescriptionsPresent(cats)
    ensures AllNormalizable(CategoriesToJson(cats))
    ensures ValuesContent(CategoriesToJson(cats)) == Content(cats)
    decreases |cats|
  {
    var js := CategoriesToJson(cats);
    forall k | 0 <= k < |cats| ensures Normalizable(js[k]) {
      CategoryRoundTrip(cats[k]);
    }
    if cats != [] {
      DescriptionsPresentTail(cats);
      assert js[1..] == CategoriesToJson(cats[1..]);
      SerializedValues(cats[1..]);
      CategoryRoundTrip(cats[0]);
      assert ValuesContent(js) == [CategoryValue(js[0])] + ValuesContent(js[1..]);
    }
  }

  lemma DescriptionsPresentTail(cats: seq<MenuCategory>)
    requires cats != [] && DescriptionsPresent(cats)
    ensures DescriptionsPresent(cats[1..])
  {
    forall k, j | 0 <= k < |cats| - 1 && 0 <= j < |cats[1..][k].items|
      ensures cats[1..][k].items[j].description.Some?
    {
      assert cats[1..][k] == cats[k + 1];
    }
  }

  /** Normalising the JSON form of described categories gives them back up to identifiers. */
  lemma SerializedCategories(cats: seq<MenuCategory>, gen: nat -> Id, m: nat)
    requires DescriptionsPresent(cats)
    ensures AllNormalizable(CategoriesToJson(cats))
    ensures Content(NormalizeAll(CategoriesToJson(cats), gen, m)) == Content(cats)
  {
    SerializedValues(cats);
    NormalizedContentIsValues(CategoriesToJson(cats), gen, m);
  }

  /**
   * Normalising the JSON form of a document whose items all carry a
   * description gives the same restaurant name and the same categories and
   * items, field for field; only the identifiers are new.
   */
  lemma RenormalizeKeepsContent(d: MenuData, gen: nat -> Id)
    requires DescriptionsPresent(d.categories)
    ensures NormalizeDocument(ToJson(d), gen).Ok?
    ensures NormalizeDocument(ToJson(d), gen).value.restaurantName == d.restaurantName
    ensures Content(NormalizeDocument(ToJson(d), gen).value.categories) == Content(d.categories)
  {
    var cats := CategoriesToJson(d.categories);
    SerializedCategories(d.categories, gen, 0);
    assert Get(ToJson(d), "categories") == Value(JArray(cats));
  }

  /** Normalised items always carry a description, so a normalised document can be renormalised losslessly. */
  lemma {:induction false} NormalizedDescriptionsPresent(cats: seq<Json>, gen: nat -> Id, next: nat)
    requires AllNormalizable(cats)
    ensures DescriptionsPresent(NormalizeAll(cats, gen, next))
  {
    if cats != [] {
      var rest := NormalizeAll(cats[1..], gen, next + IdsUsed(cats[0]));
      NormalizedDescriptionsPresent(cats[1..], gen, next + IdsUsed(cats[0]));
      var r := NormalizeAll(cats, gen, next);
      assert r == [CategoryOf(cats[0], gen, next)] + rest;
      forall k, j | 0 <= k < |r| && 0 <= j < |r[k].items| ensures r[k].items[j].description.Some? {
        if k > 0 { assert r[k] == rest[k - 1]; }
      }
    }
  }
}
