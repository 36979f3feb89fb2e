/**
 * The Yahoo! text services (backend/app/providers/ai/yahoo/provider.py): furigana
 * rendering as ruby markup and as bracketed readings, and the shaping of a parse into a
 * dictionary entry. The HTTP call is an oracle: its status and decoded JSON body, or the
 * text of what it raised. `str()` of a JSON value that is not a string is an oracle too,
 * and so is the order in which a dict yields its keys.
 */
module YahooProvider {
  import opened Wrappers
  import opened Strings
  import opened JsonValue
  import opened Seqs

  /** What an operation raised: a KeyError, whose text is the quoted key, or a
      TypeError or AttributeError, whose text the model does not spell out. */
  datatype Raised = KeyError(key: string) | TypeFailure

  /** An error field: a text, or a prefix followed by the unknown text of an
      exception. */
  datatype Message = Exact(text: string) | Prefixed(prefix: string)

  /** `prefix + str(e)` */
  function Describe(prefix: string, e: Raised): Message {
    if e.KeyError? then Exact(prefix + "'" + e.key + "'") else Prefixed(prefix)
  }

  /** `key in j`: a key of a dict, a substring of a string, an element of a list;
      anything else raises. */
  function In(key: string, j: Json): Result<bool, Raised> {
    match j
    case JObject(f) => Success(key in f)
    case JStr(s) => Success(Contains(s, key))
    case JArray(items) => Success(JStr(key) in items)
    case _ => Failure(TypeFailure)
  }

  /** `j[key]` */
  function Index(j: Json, key: string): Result<Json, Raised> {
    match j
    case JObject(f) => if key in f then Success(f[key]) else Failure(KeyError(key))
    case _ => Failure(TypeFailure)
  }

  /** The elements a `for` loop visits in a loop whose body raises on anything that is
      not a dict: a list's items; an empty dict or string gives none; a non-empty dict
      or string yields a string first, and anything else is not iterable. */
  function Elements(j: Json): Result<seq<Json>, Raised> {
    match j
    case JArray(items) => Success(items)
    case JObject(f) => if f == map[] then Success([]) else Failure(TypeFailure)
    case JStr(s) => if s == "" then Success([]) else Failure(TypeFailure)
    case _ => Failure(TypeFailure)
  }

  /** What the endpoint answered: a status and its JSON body. */
  datatype Response = Response(status: int, body: Json)

  /** `str(v)` for a value that is not a string. */
  type Show = Json -> string

  function Text(j: Json, show: Show): string {
    if j.JStr? then j.s else show(j)
  }

  // ---------------------------------------------------------------------------------
  // add_furigana

  /** The returned dict: html and plain, with or without an error. */
  datatype Furigana = Furigana(html: string, plain: string, error: Option<Message>)

  const NoClientFurigana := "Yahoo! API client IDが設定されていないため、読み仮名を追加できません。"
  const FuriganaErrorPrefix := "読み仮名の追加中にエラーが発生しました: "

  /** What one word adds to the html and the plain text: ruby markup and a bracketed
      reading when it has a non-empty reading, else its bare surface. */
  function WordText(word: Json, show: Show): Result<(string, string), Raised> {
    match In("furigana", word)
    case Failure(e) => Failure(e)
    case Success(hasReading) =>
      if !word.JObject? then Failure(TypeFailure)
      else if hasReading && Truthy(word.fields["furigana"]) then
        if "surface" !in word.fields then Failure(KeyError("surface"))
        else
          var s := Text(word.fields["surface"], show);
          var f := Text(word.fields["furigana"], show);
          Success(("<ruby>" + s + "<rt>" + f + "</rt></ruby>", s + "(" + f + ")"))
      else if "surface" !in word.fields then Failure(KeyError("surface"))
      else if !word.fields["surface"].JStr? then Failure(TypeFailure)
      else Success((word.fields["surface"].s, word.fields["surface"].s))
  }

  /** The html and plain texts of the words, in order; the first word that raises
      ends the loop. */
  function Rendered(words: seq<Json>, show: Show): Result<(string, string), Raised> {
    if words == [] then Success(("", ""))
    else
      match Rendered(words[..|words| - 1], show)
      case Failure(e) => Failure(e)
      case Success((html, plain)) =>
        match WordText(words[|words| - 1], show)
        case Failure(e) => Failure(e)
        case Success((h, p)) => Success((html + h, plain + p))
  }

  /** The loop of `add_furigana` over `result["result"]["word"]`. */
  method RenderFurigana(words: seq<Json>, show: Show) returns (r: Result<(string, string), Raised>)
    ensures r == Rendered(words, show)
  {
    var html := "";
    var plain := "";
    var i := 0;
    while i < |words|
      invariant 0 <= i <= |words|
      invariant Rendered(words[..i], show) == Success((html, plain))
    {
      assert words[..i + 1][..i] == words[..i];
      var word := words[i];
      var hasReading := In("furigana", word);
      if hasReading.Failure? {
        RenderingFailureSticks(words, show, i + 1);
        return Failure(hasReading.error);
      }
      if !word.JObject? {
        RenderingFailureSticks(words, show, i + 1);
        return Failure(TypeFailure);
      }
      if hasReading.value && Truthy(word.fields["furigana"]) {
        if "surface" !in word.fields {
          RenderingFailureSticks(words, show, i + 1);
          return Failure(KeyError("surface"));
        }
        var s := Text(word.fields["surface"], show);
        var f := Text(word.fields["furigana"], show);
        html := html + ("<ruby>" + s + "<rt>" + f + "</rt></ruby>");
        plain := plain + (s + "(" + f + ")");
      } else {
        if "surface" !in word.fields {
          RenderingFailureSticks(words, show, i + 1);
          return Failure(KeyError("surface"));
        }
        if !word.fields["surface"].JStr? {
          RenderingFailureSticks(words, show, i + 1);
          return Failure(TypeFailure);
        }
        html := html + word.fields["surface"].s;
        plain := plain + word.fields["surface"].s;
      }
      i := i + 1;
    }
    assert words[..i] == words;
    r := Success((html, plain));
  }

  /** Once a prefix of the words raises, so do all of them, with the same exception. */
  lemma {:induction false} RenderingFailureSticks(words: seq<Json>, show: Show, i: nat)
    requires i <= |words| && Rendered(words[..i], show).Failure?
    ensures Rendered(words, show) == Rendered(words[..i], show)
    decreases |words| - i
  {
    if i < |words| {
      assert words[..i + 1][..i] == words[..i];
      RenderingFailureSticks(words, show, i + 1);
    } else {
      assert words[..i] == words;
    }
  }

  /** Words without readings render the same text twice: html and plain are the
      surfaces joined. */
  lemma {:induction false} NoReadingsSameText(words: seq<Json>, show: Show)
    requires forall k :: 0 <= k < |words| ==>
      words[k].JObject? && "surface" in words[k].fields && words[k].fields["surface"].JStr?
      && ("furigana" !in words[k].fields || !Truthy(words[k].fields["furigana"]))
    ensures Rendered(words, show).Success?
    ensures Rendered(words, show).value.0 == Rendered(words, show).value.1
    ensures Rendered(words, show).value.1 == Concat(Surfaces(words))
  {
    if words != [] {
      var init := words[..|words| - 1];
      NoReadingsSameText(init, show);
      assert Surfaces(words) == Surfaces(init) + [words[|words| - 1].fields["surface"].s];
      ConcatSnoc(Surfaces(init), words[|words| - 1].fields["surface"].s);
    }
  }

  /** The surfaces of words that are dicts with a string surface, in order. */
  function Surfaces(words: seq<Json>): seq<string> {
    if words == [] then []
    else
      var last := words[|words| - 1];
      Surfaces(words[..|words| - 1])
      + (if last.JObject? && "surface" in last.fields && last.fields["surface"].JStr? then [last.fields["surface"].s] else [])
  }

  lemma {:induction false} ConcatSnoc(parts: seq<string>, s: string)
    ensures Concat(parts + [s]) == Concat(parts) + s
    decreases |parts|
  {
    if parts != [] {
      assert (parts + [s])[1..] == parts[1..] + [s];
      ConcatSnoc(parts[1..], s);
    }
  }

  /** A word with a reading shows up in both forms: its reading sits in ruby markup in
      the html and in brackets in the plain text. */
  lemma RubyAndBrackets(surface: string, reading: string, show: Show)
    requires reading != ""
    ensures WordText(JObject(map["surface" := JStr(surface), "furigana" := JStr(reading)]), show)
         == Success(("<ruby>" + surface + "<rt>" + reading + "</rt></ruby>", surface + "(" + reading + ")"))
  {
  }

  /** `add_furigana`: the input echoed with an error when there is no client id, the
      call fails, the status is not 200 or the body has no "result"; otherwise the
      rendered texts, or the input echoed with the text of what the loop raised. */
  function AddFurigana(clientId: string, text: string, response: Result<Response, string>, show: Show): (r: Furigana)
    ensures clientId == "" ==> r == Furigana(text, text, Some(Exact(NoClientFurigana)))
    ensures r.error.None? <==>
      && clientId != "" && response.Success? && response.value.status == 200
      && In("result", response.value.body) == Success(true)
      && Index(response.value.body, "result").Success?
      && Index(Index(response.value.body, "result").value, "word").Success?
      && Elements(Index(Index(response.value.body, "result").value, "word").value).Success?
      && Rendered(Elements(Index(Index(response.value.body, "result").value, "word").value).value, show).Success?
    ensures r.error.Some? ==> r.html == text && r.plain == text
    ensures clientId != "" && response.Success? && response.value.status != 200 ==>
      r.error == Some(Exact("Yahoo! API error: " + IntToString(response.value.status)))
  {
    if clientId == "" then Furigana(text, text, Some(Exact(NoClientFurigana)))
    else
      match response
      case Failure(e) => Furigana(text, text, Some(Exact(FuriganaErrorPrefix + e)))
      case Success(Response(status, body)) =>
        if status != 200 then Furigana(text, text, Some(Exact("Yahoo! API error: " + IntToString(status))))
        else
          match In("result", body)
          case Failure(e) => Furigana(text, text, Some(Describe(FuriganaErrorPrefix, e)))
          case Success(false) => Furigana(text, text, Some(Exact("Yahoo! APIからの応答が不正です。")))
          case Success(true) =>
            var words := match Index(body, "result")
              case Failure(e) => Failure(e)
              case Success(res) =>
                match Index(res, "word")
                case Failure(e) => Failure(e)
                case Success(w) => Elements(w);
            match words
            case Failure(e) => Furigana(text, text, Some(Describe(FuriganaErrorPrefix, e)))
            case Success(ws) =>
              match Rendered(ws, show)
              case Failure(e) => Furigana(text, text, Some(Describe(FuriganaErrorPrefix, e)))
              case Success((html, plain)) => Furigana(html, plain, None)
  }

  /** A result without a "word" list is a KeyError, reported with the key. */
  lemma MissingWordList(text: string, clientId: string, result: map<string, Json>, show: Show)
    requires clientId != "" && "word" !in result
    ensures AddFurigana(clientId, text, Success(Response(200, JObject(map["result" := JObject(result)]))), show)
         == Furigana(text, text, Some(Exact(FuriganaErrorPrefix + "'word'")))
  {
    assert FuriganaErrorPrefix + "'" + "word" + "'" == FuriganaErrorPrefix + "'word'";
  }

  // ---------------------------------------------------------------------------------
  // dictionary_lookup

  /** One meaning: `{"definition": d, "examples": [], "part_of_speech": pos}`. */
  datatype Meaning = Meaning(definition: Json, partOfSpeech: Json)

  /** The returned dict: the formatted entry, which always carries an "error" key
      (None when nothing went wrong) and an "etymology" of None, or the two-key
      `{word, error}`. */
  datatype Lookup =
    | Entry(word: string, readings: seq<Json>, meanings: seq<Meaning>, relatedWords: seq<Json>, error: Option<Message>)
    | Failed(word: string, failure: Message)

  const NoClientDictionary := "Yahoo! API client IDが設定されていないため、辞書検索できません。"
  const LookupErrorPrefix := "辞書検索中にエラーが発生しました: "
  const ParseErrorPrefix := "辞書レスポンスの解析中にエラーが発生しました: "

  /** `len(v)`; None when it raises. */
  function Len(j: Json): Option<nat> {
    match j
    case JStr(s) => Some(|s|)
    case JArray(items) => Some(|items|)
    case JObject(f) => Some(|f|)
    case _ => None
  }

  function Definitions(ms: seq<Meaning>): (r: seq<Json>)
    ensures |r| == |ms| && forall k :: 0 <= k < |ms| ==> r[k] == ms[k].definition
  {
    seq(|ms|, k requires 0 <= k < |ms| => ms[k].definition)
  }

  /** The state of the token loop: the readings and meanings so far, and whether a token
      raised (which ends the loop with the state as it stood). */
  datatype Scan = Scan(readings: seq<Json>, meanings: seq<Meaning>, raised: bool)

  /** A token's reading, if it is a dict with a truthy one. */
  function TokenReading(token: Json): Option<Json> {
    if token.JObject? && "reading" in token.fields && Truthy(token.fields["reading"]) then Some(token.fields["reading"])
    else None
  }

  /** A token's lemma, if it differs from the word and is truthy. */
  function TokenLemma(word: string, token: Json): Option<Json> {
    if token.JObject? && "lemma" in token.fields && token.fields["lemma"] != JStr(word) && Truthy(token.fields["lemma"])
    then Some(token.fields["lemma"])
    else None
  }

  /** One pass of the loop body. */
  function Step(word: string, s: Scan, token: Json): Scan {
    if !token.JObject? then Scan(s.readings, s.meanings, true)
    else
      var f := token.fields;
      var reading := TokenReading(token);
      var readings := if reading.Some? && reading.value !in s.readings then s.readings + [reading.value] else s.readings;
      var pos := if "pos" in f then f["pos"] else JStr("");
      match TokenLemma(word, token)
      case None => Scan(readings, s.meanings, false)
      case Some(d) =>
        match Len(d)
        case None => Scan(readings, s.meanings, true)
        case Some(n) =>
          if n > 1 && d !in Definitions(s.meanings) then Scan(readings, s.meanings + [Meaning(d, pos)], false)
          else Scan(readings, s.meanings, false)
  }

  function Scanned(word: string, tokens: seq<Json>): Scan {
    if tokens == [] then Scan([], [], false)
    else
      var s := Scanned(word, tokens[..|tokens| - 1]);
      if s.raised then s else Step(word, s, tokens[|tokens| - 1])
  }

  /** The loop of `dictionary_lookup` over `result["result"]["tokens"]`. */
  method ScanTokens(word: string, tokens: seq<Json>) returns (readings: seq<Json>, meanings: seq<Meaning>, raised: bool)
    ensures Scan(readings, meanings, raised) == Scanned(word, tokens)
  {
    readings := [];
    meanings := [];
    raised := false;
    var i := 0;
    while i < |tokens| && !raised
      invariant 0 <= i <= |tokens|
      invariant Scan(readings, meanings, raised) == Scanned(word, tokens[..i])
    {
      assert tokens[..i + 1][..i] == tokens[..i];
      var token := tokens[i];
      if !token.JObject? {
        raised := true;
      } else {
        var f := token.fields;
        if "reading" in f && Truthy(f["reading"]) && f["reading"] !in readings {
          readings := readings + [f["reading"]];
        }
        var pos := if "pos" in f then f["pos"] else JStr("");
        if "lemma" in f && f["lemma"] != JStr(word) {
          var definition := f["lemma"];
          if Truthy(definition) {
            var n := Len(definition);
            if n.None? {
              raised := true;
            } else if n.value > 1 {
              if definition !in Definitions(meanings) {
                meanings := meanings + [Meaning(definition, pos)];
              }
            }
          }
        }
      }
      i := i + 1;
    }
    if raised {
      ScanRaisedSticks(word, tokens, i);
    } else {
      assert tokens[..i] == tokens;
    }
  }

  lemma {:induction false} ScanRaisedSticks(word: string, tokens: seq<Json>, i: nat)
    requires i <= |tokens| && Scanned(word, tokens[..i]).raised
    ensures Scanned(word, tokens) == Scanned(word, tokens[..i])
    decreases |tokens| - i
  {
    if i < |tokens| {
      assert tokens[..i + 1][..i] == tokens[..i];
      ScanRaisedSticks(word, tokens, i + 1);
    } else {
      assert tokens[..i] == tokens;
    }
  }

  /** The truthy readings of the dict tokens, in order, with repeats. */
  function TokenReadings(tokens: seq<Json>): seq<Json> {
    if tokens == [] then []
    else
      var r := TokenReading(tokens[|tokens| - 1]);
      TokenReadings(tokens[..|tokens| - 1]) + (if r.Some? then [r.value] else [])
  }

  /** The lemmas that qualify as meanings (not the word, truthy, longer than one), in
      order, with repeats. */
  function TokenDefinitions(word: string, tokens: seq<Json>): seq<Json> {
    if tokens == [] then []
    else
      var d := TokenLemma(word, tokens[|tokens| - 1]);
      TokenDefinitions(word, tokens[..|tokens| - 1])
      + (if d.Some? && Len(d.value).Some? && Len(d.value).value > 1 then [d.value] else [])
  }

  /** A loop that raises nothing collects each token reading once, in first-seen order,
      and each qualifying lemma once as a definition, in first-seen order. */
  lemma ScanCollects(word: string, tokens: seq<Json>)
    requires !Scanned(word, tokens).raised
    ensures Scanned(word, tokens).readings == Dedup(TokenReadings(tokens))
    ensures Definitions(Scanned(word, tokens).meanings) == Dedup(TokenDefinitions(word, tokens))
  {
    ScanReadings(word, tokens);
    ScanDefinitions(word, tokens);
  }

  lemma {:induction false} ScanReadings(word: string, tokens: seq<Json>)
    requires !Scanned(word, tokens).raised
    ensures Scanned(word, tokens).readings == Dedup(TokenReadings(tokens))
  {
    if tokens != [] {
      var init := tokens[..|tokens| - 1];
      ScanReadings(word, init);
      var tr := TokenReadings(tokens);
      if TokenReading(tokens[|tokens| - 1]).Some? {
        assert tr[..|tr| - 1] == TokenReadings(init);
      } else {
        assert tr == TokenReadings(init);
      }
    }
  }

  lemma {:induction false} ScanDefinitions(word: string, tokens: seq<Json>)
    requires !Scanned(word, tokens).raised
    ensures Definitions(Scanned(word, tokens).meanings) == Dedup(TokenDefinitions(word, tokens))
  {
    if tokens != [] {
      var init := tokens[..|tokens| - 1];
      var s := Scanned(word, init);
      ScanDefinitions(word, init);
      var last := tokens[|tokens| - 1];
      var d := TokenLemma(word, last);
      var td := TokenDefinitions(word, tokens);
      if d.Some? && Len(d.value).Some? && Len(d.value).value > 1 {
        assert td[..|td| - 1] == TokenDefinitions(word, init);
        if d.value !in Definitions(s.meanings) {
          var pos := if "pos" in last.fields then last.fields["pos"] else JStr("");
          assert Definitions(s.meanings + [Meaning(d.value, pos)]) == Definitions(s.meanings) + [d.value];
        }
      } else {
        assert td == TokenDefinitions(word, init);
      }
    }
  }

  /** Every meaning has a definition that is not the word, is truthy and is longer than
      one. */
  lemma {:induction false} MeaningsQualify(word: string, tokens: seq<Json>)
    ensures forall k :: 0 <= k < |Scanned(word, tokens).meanings| ==>
      var d := Scanned(word, tokens).meanings[k].definition;
      d != JStr(word) && Truthy(d) && Len(d).Some? && Len(d).value > 1
  {
    if tokens != [] {
      MeaningsQualify(word, tokens[..|tokens| - 1]);
    }
  }

  /** `{"definition": word, "examples": [], "part_of_speech": ""}` */
  function WordMeaning(word: string): Meaning {
    Meaning(JStr(word), JStr(""))
  }

  /** The elements `for related in ...` visits: a list's items, a string's characters,
      a dict's keys in its own order. */
  function RelatedElements(j: Json, keyOrder: map<string, Json> -> seq<string>): Result<seq<Json>, Raised> {
    match j
    case JArray(items) => Success(items)
    case JStr(s) => Success(seq(|s|, k requires 0 <= k < |s| => JStr([s[k]])))
    case JObject(f) => var ks := keyOrder(f); Success(seq(|ks|, k requires 0 <= k < |ks| => JStr(ks[k])))
    case _ => Failure(TypeFailure)
  }

  /** The related-words loop of the error handler. */
  method CollectRelated(items: seq<Json>) returns (related: seq<Json>)
    ensures related == Dedup(items)
  {
    related := [];
    for i := 0 to |items|
      invariant related == Dedup(items[..i])
    {
      assert items[..i + 1][..i] == items[..i];
      if items[i] !in related {
        related := related + [items[i]];
      }
    }
    assert items[..|items|] == items;
  }

  /** The formatted entry of a parse whose loop ran to the end: the result-level
      reading stands in when no token had one, and the word itself when no meaning was
      found. */
  function Completed(word: string, res: map<string, Json>, s: Scan): Lookup {
    Entry(word,
          if s.readings == [] && "reading" in res then [res["reading"]] else s.readings,
          if s.meanings == [] then [WordMeaning(word)] else s.meanings,
          [], None)
  }

  /** The error handler: the state as it stood, the parse error, and the related words;
      when the handler raises too, the two-key failure. */
  function Interrupted(word: string, res: Json, s: Scan, keyOrder: map<string, Json> -> seq<string>): Lookup {
    var error := Some(Prefixed(ParseErrorPrefix));
    match In("related", res)
    case Failure(e) => Failed(word, Describe(LookupErrorPrefix, e))
    case Success(false) => Entry(word, s.readings, s.meanings, [], error)
    case Success(true) =>
      match Index(res, "related")
      case Failure(e) => Failed(word, Describe(LookupErrorPrefix, e))
      case Success(rel) =>
        match RelatedElements(rel, keyOrder)
        case Failure(e) => Failed(word, Describe(LookupErrorPrefix, e))
        case Success(items) => Entry(word, s.readings, s.meanings, Dedup(items), error)
  }

  /** The `try` block of the formatting, for a body with a "result". */
  function FormatResult(word: string, res: Json, keyOrder: map<string, Json> -> seq<string>): Lookup {
    match In("tokens", res)
    case Failure(_) => Interrupted(word, res, Scan([], [], true), keyOrder)
    case Success(hasTokens) =>
      var s := if !hasTokens then Scan([], [], false)
               else match Index(res, "tokens")
                 case Failure(_) => Scan([], [], true)
                 case Success(t) =>
                   match Elements(t)
                   case Failure(_) => Scan([], [], true)
                   case Success(tokens) => Scanned(word, tokens);
      if s.raised then Interrupted(word, res, s, keyOrder)
      else if s.readings == [] then
        match In("reading", res)
        case Failure(_) => Interrupted(word, res, s, keyOrder)
        case Success(hasReading) =>
          if !hasReading then Completed(word, map[], s)
          else if !res.JObject? then Interrupted(word, res, s, keyOrder)
          else Completed(word, res.fields, s)
      else Completed(word, map[], s)
  }

  /** `dictionary_lookup` */
  function DictionaryLookup(clientId: string, word: string, response: Result<Response, string>,
                            keyOrder: map<string, Json> -> seq<string>): (r: Lookup)
    ensures r.word == word
    ensures clientId == "" ==> r == Failed(word, Exact(NoClientDictionary))
    ensures clientId != "" && response.Failure? ==> r == Failed(word, Exact(LookupErrorPrefix + response.error))
    ensures clientId != "" && response.Success? && response.value.status != 200 ==>
      r == Failed(word, Exact("Yahoo! API error: " + IntToString(response.value.status)))
    ensures r.Entry? && r.error.None? ==> r.meanings != [] && r.relatedWords == []
  {
    if clientId == "" then Failed(word, Exact(NoClientDictionary))
    else
      match response
      case Failure(e) => Failed(word, Exact(LookupErrorPrefix + e))
      case Success(Response(status, body)) =>
        if status != 200 then Failed(word, Exact("Yahoo! API error: " + IntToString(status)))
        else
          match In("result", body)
          case Failure(e) => Failed(word, Describe(LookupErrorPrefix, e))
          case Success(false) => Completed(word, map[], Scan([], [], false))
          case Success(true) =>
            match Index(body, "result")
            case Failure(e) => Failed(word, Describe(LookupErrorPrefix, e))
            case Success(res) => FormatResult(word, res, keyOrder)
  }

  /** A parse whose tokens are all dicts (and whose qualifying lemmas have a length)
      gives an entry without error: its readings are the distinct token readings in
      first-seen order, its meanings carry the distinct qualifying lemmas in first-seen
      order, or the word itself when there are none. */
  lemma WellFormedParse(clientId: string, word: string, res: map<string, Json>, tokens: seq<Json>,
                        keyOrder: map<string, Json> -> seq<string>)
    requires clientId != ""
    requires res.Keys == {"tokens"} && res["tokens"] == JArray(tokens)
    requires forall k :: 0 <= k < |tokens| ==> tokens[k].JObject?
    requires forall k :: 0 <= k < |tokens| ==> TokenLemma(word, tokens[k]).Some? ==>
      Len(TokenLemma(word, tokens[k]).value).Some?
    ensures var r := DictionaryLookup(clientId, word, Success(Response(200, JObject(map["result" := JObject(res)]))), keyOrder);
      && r.Entry? && r.error.None?
      && r.readings == Dedup(TokenReadings(tokens)) && Distinct(r.readings)
      && Definitions(r.meanings)
         == (if TokenDefinitions(word, tokens) == [] then [JStr(word)] else Dedup(TokenDefinitions(word, tokens)))
      && Distinct(Definitions(r.meanings))
  {
    NoRaise(word, tokens);
    var s := Scanned(word, tokens);
    WellFormedCompletes(clientId, word, res, tokens, keyOrder);
    ScanCollects(word, tokens);
    DedupMeaning(TokenReadings(tokens));
    DedupMeaning(TokenDefinitions(word, tokens));
    if TokenDefinitions(word, tokens) == [] {
      assert Definitions([WordMeaning(word)]) == [JStr(word)];
    } else {
      assert TokenDefinitions(word, tokens)[0] in Dedup(TokenDefinitions(word, tokens));
    }
  }

  /** A result holding only a token list that scans without raising completes with the
      scan's readings and meanings. */
  lemma WellFormedCompletes(clientId: string, word: string, res: map<string, Json>, tokens: seq<Json>,
                            keyOrder: map<string, Json> -> seq<string>)
    requires clientId != ""
    requires res.Keys == {"tokens"} && res["tokens"] == JArray(tokens) && !Scanned(word, tokens).raised
    ensures DictionaryLookup(clientId, word, Success(Response(200, JObject(map["result" := JObject(res)]))), keyOrder)
      == Completed(word, map[], Scanned(word, tokens))
  {
    assert "reading" !in res;
  }

  /** Dict tokens whose qualifying lemmas all have a length raise nothing. */
  lemma {:induction false} NoRaise(word: string, tokens: seq<Json>)
    requires forall k :: 0 <= k < |tokens| ==> tokens[k].JObject?
    requires forall k :: 0 <= k < |tokens| ==> TokenLemma(word, tokens[k]).Some? ==> Len(TokenLemma(word, tokens[k]).value).Some?
    ensures !Scanned(word, tokens).raised
  {
    if tokens != [] {
      NoRaise(word, tokens[..|tokens| - 1]);
    }
  }

  /** A token whose lemma is a number raises; the readings gathered up to and including
      it survive, the meanings gathered before it survive, and the related words are
      collected. */
  lemma NumericLemmaInterrupts(word: string, reading: Json, related: seq<Json>, keyOrder: map<string, Json> -> seq<string>)
    requires Truthy(reading)
    ensures var token := JObject(map["reading" := reading, "lemma" := JNum(2.0)]);
      var res := JObject(map["tokens" := JArray([token]), "related" := JArray(related)]);
      FormatResult(word, res, keyOrder)
      == Entry(word, [reading], [], Dedup(related), Some(Prefixed(ParseErrorPrefix)))
  {
    var token := JObject(map["reading" := reading, "lemma" := JNum(2.0)]);
    assert Scanned(word, [token]) == Step(word, Scan([], [], false), token);
  }
}
