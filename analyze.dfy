/** The image-analysis route (app/api/analyze/route.ts): upload validation,
    text normalisation, the knowledge-base matcher, and the branch on the
    number of matches that picks a front-of-package summary or an
    ingredient-grounded one. OCR, the knowledge-base file and the language
    model are inputs. */
module AnalyzeRoute {
  import opened Domain
  import opened Strings
  import opened Llm
  import opened Prompts

  const MaxFileSizeMb: nat := 5
  const MaxFileSize: nat := MaxFileSizeMb * 1024 * 1024
  const AllowedFileTypes: seq<string> :=
    ["image/jpeg", "image/png", "image/webp", "image/heic", "image/heif"]
  /** Fewer matches than this is read as a scan of the front of a package. */
  const RichThreshold: nat := 3
  const SummaryTokens: nat := 150

  const CouldNotIdentify := "Could not identify the product."
  const SummaryFallback := "Sorry, I couldn't generate a summary."

  /** The uploaded file as the route sees it: its size in bytes and MIME type. */
  datatype Upload = Upload(size: nat, mimeType: string)

  datatype Response =
    | GeneralInfo(aiSummary: string)
    | Analysis(aiSummary: string, foundIngredients: seq<Ingredient>)
    | Failure(status: nat, error: string)

  /** What HEIC conversion and text detection deliver: a failure (a thrown
      conversion, a missing API key, a provider error payload), or the
      detected text, which may be absent. */
  datatype Ocr = OcrFailed | OcrText(text: Option<string>)

  /** The route's collaborators: the rate limiter's verdict, text detection,
      the parsed knowledge base (`None` when reading or parsing it throws),
      whether the model API key is configured, and the model itself. */
  datatype Services = Services(
    rateLimitOk: bool,
    ocr: Ocr,
    knowledgeBase: Option<seq<Ingredient>>,
    llmConfigured: bool,
    llm: Provider)

  datatype Outcome = Outcome(response: Response, calls: seq<CompletionRequest>)

  const Throttled := Failure(429, "Too many requests. Please try again later.")
  const NoFile := Failure(400, "No image file provided.")
  const TooLarge := Failure(413, "File is too large. Max size is " + NatToString(MaxFileSizeMb) + "MB.")
  const BadType := Failure(415, "Invalid file type. Only JPEG, PNG, HEIC, and WebP are allowed.")
  const Failed := Failure(500, "Failed to process the request.")

  /** The size limit prints as a whole number of megabytes. */
  lemma TooLargeMessage()
    ensures TooLarge.error == "File is too large. Max size is 5MB."
  {
    assert NatToString(MaxFileSizeMb) == "5";
  }

  // --------------------------------------------------------- validation

  /** The upload checks, in the route's order: presence, then size, then type. */
  function ValidateUpload(image: Option<Upload>): (r: Option<Response>)
    ensures r == Some(NoFile) <==> image.None?
    ensures r == Some(TooLarge) <==> image.Some? && image.value.size > MaxFileSize
    ensures r == Some(BadType) <==>
      image.Some? && image.value.size <= MaxFileSize && image.value.mimeType !in AllowedFileTypes
    ensures r.None? <==>
      image.Some? && image.value.size <= MaxFileSize && image.value.mimeType in AllowedFileTypes
  {
    if image.None? then Some(NoFile)
    else if image.value.size > MaxFileSize then Some(TooLarge)
    else if image.value.mimeType !in AllowedFileTypes then Some(BadType)
    else None
  }

  /** The size limit is inclusive, and only the five listed MIME types pass. */
  lemma SizeBoundary()
    ensures ValidateUpload(Some(Upload(5242880, "image/png"))).None?
    ensures ValidateUpload(Some(Upload(5242881, "image/png"))) == Some(TooLarge)
    ensures ValidateUpload(Some(Upload(5242881, "text/plain"))) == Some(TooLarge)
    ensures ValidateUpload(Some(Upload(0, "image/jpg"))) == Some(BadType)
  {
    assert "image/jpg" !in AllowedFileTypes by {
      assert forall t :: t in AllowedFileTypes ==> |t| != 9 || t[6] != 'j';
    }
  }

  // ------------------------------------------------------ normalisation

  function SearchChar(c: char): char {
    if c == '\n' || c == ',' || c == '.' then ' ' else LowerChar(c)
  }

  /** `extractedText.toLowerCase().replace(/[\n,.]/g, ' ')`. */
  function Normalise(text: string): (r: string)
    ensures |r| == |text|
    ensures forall i :: 0 <= i < |text| ==>
      r[i] == if text[i] in "\n,." then ' ' else LowerChar(text[i])
    ensures forall i :: 0 <= i < |r| ==> r[i] !in "\n,." && !('A' <= r[i] <= 'Z')
  {
    seq(|text|, i requires 0 <= i < |text| => SearchChar(text[i]))
  }

  /** Normalising normalised text changes nothing. */
  lemma NormaliseIdempotent(text: string)
    ensures Normalise(Normalise(text)) == Normalise(text)
  {
    var n := Normalise(text);
    forall i | 0 <= i < |n| ensures Normalise(n)[i] == n[i] {
      assert n[i] !in "\n,." && !('A' <= n[i] <= 'Z');
    }
  }

  // ------------------------------------------------------------ matcher

  predicate NameHit(text: string, ing: Ingredient) {
    Contains(text, Lower(ing.ingredientName))
  }

  predicate AliasHit(text: string, aliases: seq<string>) {
    exists j :: 0 <= j < |aliases| && Contains(text, Lower(aliases[j]))
  }

  /** An entry is found when its lower-cased name, or one of its lower-cased
      aliases, is a substring of the searchable text. */
  predicate Matches(text: string, ing: Ingredient) {
    NameHit(text, ing) || AliasHit(text, ing.aliases)
  }

  /** The entries of the knowledge base that match, each at most once, in
      knowledge-base order. */
  function MatchCatalog(text: string, catalog: seq<Ingredient>): (found: seq<Ingredient>)
    ensures |found| <= |catalog|
  {
    if catalog == [] then []
    else
      var last := catalog[|catalog| - 1];
      MatchCatalog(text, catalog[..|catalog| - 1]) + if Matches(text, last) then [last] else []
  }

  /** The positions of the knowledge base whose entry matches, ascending. */
  function MatchedPositions(text: string, catalog: seq<Ingredient>): seq<nat> {
    if catalog == [] then []
    else
      var n := |catalog| - 1;
      MatchedPositions(text, catalog[..n]) + if Matches(text, catalog[n]) then [n] else []
  }

  predicate Ascending(ps: seq<nat>) {
    forall a, b :: 0 <= a < b < |ps| ==> ps[a] < ps[b]
  }

  /** An entry is in the match list if and only if it is in the knowledge
      base and matches. */
  lemma {:induction false} MatchCatalogMembers(text: string, catalog: seq<Ingredient>)
    ensures forall x :: x in MatchCatalog(text, catalog) <==> x in catalog && Matches(text, x)
    decreases |catalog|
  {
    if catalog != [] {
      var n := |catalog| - 1;
      MatchCatalogMembers(text, catalog[..n]);
      assert catalog == catalog[..n] + [catalog[n]];
    }
  }

  lemma {:induction false} PositionsAscend(text: string, catalog: seq<Ingredient>)
    ensures var ps := MatchedPositions(text, catalog);
      Ascending(ps) && forall k :: 0 <= k < |ps| ==> ps[k] < |catalog|
    decreases |catalog|
  {
    if catalog != [] {
      PositionsAscend(text, catalog[..|catalog| - 1]);
    }
  }

  lemma {:induction false} PositionsPick(text: string, catalog: seq<Ingredient>)
    ensures var found, ps := MatchCatalog(text, catalog), MatchedPositions(text, catalog);
      && |found| == |ps|
      && forall k :: 0 <= k < |ps| ==> ps[k] < |catalog| && found[k] == catalog[ps[k]]
    decreases |catalog|
  {
    if catalog != [] {
      var n := |catalog| - 1;
      var init := catalog[..n];
      PositionsPick(text, init);
      PositionsAscend(text, init);
      var found, ps := MatchCatalog(text, init), MatchedPositions(text, init);
      var found', ps' := MatchCatalog(text, catalog), MatchedPositions(text, catalog);
      if Matches(text, catalog[n]) {
        assert found' == found + [catalog[n]] && ps' == ps + [n];
      } else {
        assert found' == found && ps' == ps;
      }
      forall k | 0 <= k < |ps'| ensures ps'[k] < |catalog| && found'[k] == catalog[ps'[k]] {
        if k < |ps| {
          assert found'[k] == found[k] && ps'[k] == ps[k];
          assert catalog[ps[k]] == init[ps[k]];
        }
      }
    }
  }

  lemma {:induction false} PositionsExact(text: string, catalog: seq<Ingredient>)
    ensures var ps := MatchedPositions(text, catalog);
      forall i: nat :: i < |catalog| ==> (i in ps <==> Matches(text, catalog[i]))
    decreases |catalog|
  {
    if catalog != [] {
      var n := |catalog| - 1;
      var init := catalog[..n];
      PositionsExact(text, init);
      PositionsAscend(text, init);
      assert forall i: nat :: i < n ==> catalog[i] == init[i];
    }
  }

  /** The match list is the subsequence of the knowledge base at exactly the
      matching positions: its k-th element is the entry at the k-th matching
      position, the positions ascend (catalog order, no position twice), and a
      position is among them if and only if its entry matches. */
  lemma MatchCatalogSelects(text: string, catalog: seq<Ingredient>)
    ensures var found, ps := MatchCatalog(text, catalog), MatchedPositions(text, catalog);
      && |found| == |ps|
      && Ascending(ps)
      && (forall k :: 0 <= k < |ps| ==> ps[k] < |catalog| && found[k] == catalog[ps[k]])
      && (forall i: nat :: i < |catalog| ==> (i in ps <==> Matches(text, catalog[i])))
  {
    PositionsAscend(text, catalog);
    PositionsPick(text, catalog);
    PositionsExact(text, catalog);
  }

  /** Each entry occurs in the match list exactly as often as in the
      knowledge base when it matches, and not at all otherwise. */
  lemma {:induction false} MatchCatalogCounts(text: string, catalog: seq<Ingredient>, x: Ingredient)
    ensures multiset(MatchCatalog(text, catalog))[x] ==
      if Matches(text, x) then multiset(catalog)[x] else 0
    decreases |catalog|
  {
    if catalog != [] {
      var n := |catalog| - 1;
      MatchCatalogCounts(text, catalog[..n], x);
      assert catalog == catalog[..n] + [catalog[n]];
    }
  }

  /** Matching the match list again gives the same list. */
  lemma {:induction false} MatchCatalogIdempotent(text: string, catalog: seq<Ingredient>)
    ensures MatchCatalog(text, MatchCatalog(text, catalog)) == MatchCatalog(text, catalog)
    decreases |catalog|
  {
    if catalog != [] {
      var n := |catalog| - 1;
      var last := catalog[n];
      var init := MatchCatalog(text, catalog[..n]);
      MatchCatalogIdempotent(text, catalog[..n]);
      if Matches(text, last) {
        var f := init + [last];
        assert f[..|f| - 1] == init;
        assert MatchCatalog(text, f) == MatchCatalog(text, init) + [last];
      } else {
        assert MatchCatalog(text, catalog) == init;
      }
    }
  }

  /** An entry whose name stands in the scanned text in any letter case is
      found; the name may be followed or preceded by a newline, comma or
      period. */
  lemma NameInTextIsFound(before: string, word: string, after: string,
                          catalog: seq<Ingredient>, i: nat)
    requires i < |catalog| && Lower(word) == Lower(catalog[i].ingredientName)
    requires forall k :: 0 <= k < |word| ==> word[k] !in "\n,."
    ensures catalog[i] in MatchCatalog(Normalise(before + word + after), catalog)
  {
    var text := Normalise(before + word + after);
    var name := Lower(catalog[i].ingredientName);
    assert text[|before|..|before| + |word|] == name by {
      forall k | 0 <= k < |word| ensures text[|before| + k] == name[k] {
        assert (before + word + after)[|before| + k] == word[k];
      }
    }
    ContainsWindow(text, name, |before|);
    MatchCatalogMembers(text, catalog);
  }

  /** An entry whose name holds a newline, comma or period is never found by
      its name, since normalisation removes those characters from the text but
      not from the name; only an alias can find it. */
  lemma PunctuatedNameNeverHits(text: string, ing: Ingredient, c: char)
    requires c in "\n,." && c in ing.ingredientName
    ensures !NameHit(Normalise(text), ing)
  {
    var j :| 0 <= j < |ing.ingredientName| && ing.ingredientName[j] == c;
    assert Lower(ing.ingredientName)[j] == c;
    MissingCharNotContained(Normalise(text), Lower(ing.ingredientName), c);
  }

  /** The loop of app/api/analyze/route.ts:122-133: a name hit adds the entry and moves on; else
      the aliases are tried in order and the first hit adds it and stops. */
  method FindIngredients(searchableText: string, knowledgeBase: seq<Ingredient>)
    returns (found: seq<Ingredient>)
    ensures found == MatchCatalog(searchableText, knowledgeBase)
  {
    found := [];
    for i := 0 to |knowledgeBase|
      invariant found == MatchCatalog(searchableText, knowledgeBase[..i])
    {
      var ingredient := knowledgeBase[i];
      assert knowledgeBase[..i + 1][..i] == knowledgeBase[..i];
      if Contains(searchableText, Lower(ingredient.ingredientName)) {
        found := found + [ingredient];
        continue;
      }
      ghost var before := found;
      for j := 0 to |ingredient.aliases|
        invariant found == before
        invariant forall k :: 0 <= k < j ==> !Contains(searchableText, Lower(ingredient.aliases[k]))
      {
        if Contains(searchableText, Lower(ingredient.aliases[j])) {
          found := found + [ingredient];
          break;
        }
      }
    }
    assert knowledgeBase[..|knowledgeBase|] == knowledgeBase;
  }

  // ---------------------------------------------------- response shaping

  /** Replaces a match of the regular expression `^:\s*` by `": "`. */
  function ReplaceLeadingColon(raw: string): (r: string)
    ensures (|r| > 0 && r[0] == ':') <==> (|raw| > 0 && raw[0] == ':')
    ensures |raw| > 0 && raw[0] == ':' ==>
      |r| >= 2 && r[1] == ' ' && (|r| == 2 || !IsSpace(r[2]))
      && exists p :: AllSpace(p) && raw == ":" + p + r[2..]
    ensures !(|raw| > 0 && raw[0] == ':') ==> r == raw
  {
    if |raw| > 0 && raw[0] == ':' then
      TrimStartSplit(raw[1..]);
      var p :| AllSpace(p) && raw[1..] == p + TrimStart(raw[1..]);
      var r := ": " + TrimStart(raw[1..]);
      assert r[2..] == TrimStart(raw[1..]);
      assert raw == [raw[0]] + raw[1..];
      assert raw == ":" + p + r[2..];
      r
    else raw
  }

  /** The summary of the rich branch: the content, or the fallback when it
      is absent or empty, with a leading colon and the white space after it
      rewritten to `": "`, then trimmed. The fallback comes only for absent or
      empty content, and a leading colon is kept. */
  function AnalysisSummary(content: Option<string>): (r: string)
    ensures Trimmed(r)
    ensures content.None? || content == Some("") ==> r == SummaryFallback
    ensures content.Some? && content.value != "" && content.value[0] != ':' ==>
      r == Trim(content.value)
    ensures content.Some? && content.value != "" && content.value[0] == ':' ==>
      var rest := content.value[1..];
      r == if AllSpace(rest) then ":" else ": " + Trim(rest)
  {
    var raw := if content.Some? && content.value != "" then content.value else SummaryFallback;
    var rewritten := ReplaceLeadingColon(raw);
    if |raw| > 0 && raw[0] == ':' then
      ColonSummary(raw[1..]);
      TrimSplit(rewritten);
      Trim(rewritten)
    else
      TrimSplit(rewritten);
      FallbackTrimmed();
      Trim(rewritten)
  }

  lemma FallbackTrimmed()
    ensures Trim(SummaryFallback) == SummaryFallback
  {
    TrimOf([], SummaryFallback, []);
    assert [] + SummaryFallback + [] == SummaryFallback;
  }

  /** White-space-only content is truthy, so it escapes the fallback and
      trims to an empty summary (the front-page branch trims first and so
      falls back instead). */
  lemma BlankContentGivesEmptySummary(s: string)
    requires s != "" && AllSpace(s)
    ensures AnalysisSummary(Some(s)) == ""
    ensures TrimmedOr(Some(s), CouldNotIdentify) == CouldNotIdentify
  {
    TrimEmpty(s);
    assert IsSpace(s[0]);
  }

  /** app/api/analyze/route.ts:143-212: below three matches a front-page summary of the raw
      text tagged `general_info` and no ingredient list; otherwise the
      ingredient-grounded summary tagged `analysis`, with the match list
      unchanged. One model call either way; a thrown call is a 500. */
  function Summarise(found: seq<Ingredient>, extractedText: string, llm: Provider): (o: Outcome)
    ensures |o.calls| == 1 && o.calls[0].model == ScoutModel && o.calls[0].maxTokens == SummaryTokens
    ensures |found| < RichThreshold ==>
      o.calls[0].prompt == FrontPage(extractedText) && !o.response.Analysis?
    ensures |found| >= RichThreshold ==>
      o.calls[0].prompt == IngredientSummary(SerializeContext(found)) && !o.response.GeneralInfo?
    ensures llm(o.calls[0]).Thrown? <==> o.response == Failed
    ensures llm(o.calls[0]).Returned? ==>
      (if |found| < RichThreshold then o.response.GeneralInfo? else o.response.Analysis?)
    ensures o.response.GeneralInfo? ==>
      o.response.aiSummary == TrimmedOr(llm(o.calls[0]).content, CouldNotIdentify)
    ensures o.response.Analysis? ==>
      o.response.foundIngredients == found
      && o.response.aiSummary == AnalysisSummary(llm(o.calls[0]).content)
  {
    if |found| < RichThreshold then
      var request := CompletionRequest(ScoutModel, FrontPage(extractedText), SummaryTokens);
      var reply := llm(request);
      Outcome(if reply.Thrown? then Failed else GeneralInfo(TrimmedOr(reply.content, CouldNotIdentify)), [request])
    else
      var request := CompletionRequest(ScoutModel, IngredientSummary(SerializeContext(found)), SummaryTokens);
      var reply := llm(request);
      Outcome(if reply.Thrown? then Failed else Analysis(AnalysisSummary(reply.content), found), [request])
  }

  // ------------------------------------------------------------- route

  /** Every check passed and every collaborator delivered, so the matcher
      runs and the model is asked. */
  predicate Proceeds(services: Services, image: Option<Upload>) {
    && services.rateLimitOk
    && ValidateUpload(image).None?
    && services.ocr.OcrText?
    && services.knowledgeBase.Some?
    && services.llmConfigured
  }

  function ExtractedText(ocr: Ocr): string
    requires ocr.OcrText?
  {
    ocr.text.GetOr("")
  }

  /** `POST /api/analyze`. */
  method Post(services: Services, image: Option<Upload>) returns (r: Response, calls: seq<CompletionRequest>)
    ensures !services.rateLimitOk ==> r == Throttled && calls == []
    ensures services.rateLimitOk && ValidateUpload(image).Some? ==>
      r == ValidateUpload(image).value && calls == []
    ensures services.rateLimitOk && ValidateUpload(image).None? && !Proceeds(services, image) ==>
      r == Failed && calls == []
    ensures Proceeds(services, image) ==>
      var text := ExtractedText(services.ocr);
      var found := MatchCatalog(Normalise(text), services.knowledgeBase.value);
      Outcome(r, calls) == Summarise(found, text, services.llm)
    ensures r.Analysis? ==>
      Proceeds(services, image)
      && r.foundIngredients ==
         MatchCatalog(Normalise(ExtractedText(services.ocr)), services.knowledgeBase.value)
      && |r.foundIngredients| >= RichThreshold
    ensures r.GeneralInfo? ==>
      Proceeds(services, image)
      && |MatchCatalog(Normalise(ExtractedText(services.ocr)), services.knowledgeBase.value)| < RichThreshold
  {
    calls := [];
    if !services.rateLimitOk {
      return Throttled, [];
    }
    var rejection := ValidateUpload(image);
    if rejection.Some? {
      return rejection.value, [];
    }
    if services.ocr.OcrFailed? {
      return Failed, [];
    }
    var extractedText := services.ocr.text.GetOr("");
    if services.knowledgeBase.None? {
      return Failed, [];
    }
    var searchableText := Normalise(extractedText);
    var foundIngredients := FindIngredients(searchableText, services.knowledgeBase.value);
    if !services.llmConfigured {
      return Failed, [];
    }
    var outcome := Summarise(foundIngredients, extractedText, services.llm);
    r, calls := outcome.response, outcome.calls;
  }
}
