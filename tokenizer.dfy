/** The MeCab side of the user-dictionary service (rest-mecab/src/tokenizer.rs): the
    dictionary line written for a proper noun, and the parser of one line of the tagger's
    output, `surface<TAB>f0,f1,...,f7[,f8]`. */
module Tokenizer {
  import opened Wrappers
  import opened Text
  import opened Hangul

  datatype Morpheme = Morpheme(token: string, tag: string)

  /** One analysed token: its surface, its part-of-speech tags, and the optional feature
      fields, each "*" in the output read as absent. */
  datatype Analytics = Analytics(
    token: string,
    tags: seq<string>,
    semanticGroup: Option<string>,
    hasSupport: Option<bool>,
    pronounce: Option<string>,
    kind: Option<string>,
    leftTag: Option<string>,
    rightTag: Option<string>,
    morphemes: Option<seq<Morpheme>>)

  /** `anyhow::Error::msg(..)`: the error carries the text that could not be parsed. */
  datatype ParseError = ParseError(input: string)

  // The user-dictionary line

  /** "T" when the noun ends in a syllable with a final consonant, "F" otherwise. */
  function SupportField(nnp: string): string
    requires nnp != []
  {
    if HasSupport(nnp[|nnp| - 1]) then "T" else "F"
  }

  /** `mecab_csv_nnp_format`: the MeCab dictionary line registering `nnp` as a proper
      noun, or the error for an empty noun. */
  function MecabCsvNnpFormat(nnp: string): (r: Result<string, string>)
    ensures r.Err? <==> nnp == []
    ensures r.Err? ==> r.error == "NNP length 0"
    ensures r.Ok? ==> |r.value| > |nnp|
  {
    if nnp == [] then Err("NNP length 0")
    else Ok(nnp + ",,,,NNP,*," + SupportField(nnp) + "," + nnp + ",*,*,*,*")
  }

  /** The twelve fields of the dictionary line: surface, three empty id/cost fields, tag
      NNP, "*", the final-consonant flag, the reading, and four "*" fields. */
  function NnpFields(nnp: string): seq<string>
    requires nnp != []
  {
    [nnp, "", "", "", "NNP", "*", SupportField(nnp), nnp, "*", "*", "*", "*"]
  }

  /** Four comma-free fields in front of `rest` split off one by one. */
  lemma SplitFour(a: string, b: string, c: string, d: string, rest: string)
    requires ',' !in a && ',' !in b && ',' !in c && ',' !in d
    ensures Split(a + [','] + (b + [','] + (c + [','] + (d + [','] + rest))), ',') == [a, b, c, d] + Split(rest, ',')
  {
    SplitPiecePrefix(d, rest, ',');
    SplitPiecePrefix(c, d + [','] + rest, ',');
    SplitPiecePrefix(b, c + [','] + (d + [','] + rest), ',');
    SplitPiecePrefix(a, b + [','] + (c + [','] + (d + [','] + rest)), ',');
  }

  /** The twelve fields in three groups of four. */
  lemma NnpFieldGroups(nnp: string)
    requires nnp != []
    ensures NnpFields(nnp) == [nnp, "", "", ""] + ([ "NNP", "*", SupportField(nnp), nnp] + ["*", "*", "*", "*"])
  {
  }

  /** For a noun without commas, the dictionary line splits into exactly its twelve
      fields, and the flag is "T" exactly when the last syllable has a final consonant. */
  lemma NnpFormatFields(nnp: string)
    requires nnp != [] && ',' !in nnp
    ensures MecabCsvNnpFormat(nnp).Ok?
    ensures Split(MecabCsvNnpFormat(nnp).value, ',') == NnpFields(nnp)
    ensures NnpFields(nnp)[6] == "T" <==> HasSupport(nnp[|nnp| - 1])
  {
    var flag := SupportField(nnp);
    var r8 := "*" + [','] + ("*" + [','] + ("*" + [','] + "*"));
    var r4 := "NNP" + [','] + ("*" + [','] + (flag + [','] + (nnp + [','] + r8)));
    SplitNoSep("*", ',');
    SplitPiecePrefix("*", "*", ',');
    SplitPiecePrefix("*", "*" + [','] + "*", ',');
    SplitPiecePrefix("*", "*" + [','] + ("*" + [','] + "*"), ',');
    assert Split(r8, ',') == ["*", "*", "*", "*"];
    SplitFour("NNP", "*", flag, nnp, r8);
    SplitFour(nnp, "", "", "", r4);
    NnpFieldGroups(nnp);
    NnpLineShape(nnp);
  }

  /** The dictionary line, field by field. */
  lemma NnpLineShape(nnp: string)
    requires nnp != []
    ensures MecabCsvNnpFormat(nnp).value == nnp + [','] + ("" + [','] + ("" + [','] + ("" + [','] + ("NNP" + [','] + ("*" + [','] + (SupportField(nnp) + [','] + (nnp + [','] + ("*" + [','] + ("*" + [','] + ("*" + [','] + ("*")))))))))))
  {
  }

  // Reading one output line

  /** `asterisk_as_none`: "*" is absent, anything else is kept as it is. */
  function AsteriskAsNone(s: string): (r: Option<string>)
    ensures r.None? <==> s == "*"
    ensures r.Some? ==> r.value == s
  {
    if s == "*" then None else Some(s)
  }

  /** Writing an absent field back as "*" restores the field. */
  lemma AsteriskRoundTrip(s: string)
    ensures AsteriskAsNone(s).GetOr("*") == s
  {
  }

  /** The final-consonant field: "T", "F", or anything else as unknown. */
  function SupportFlag(s: string): (r: Option<bool>)
    ensures r == Some(true) <==> s == "T"
    ensures r == Some(false) <==> s == "F"
    ensures r.None? <==> s != "T" && s != "F"
  {
    if s == "T" then Some(true) else if s == "F" then Some(false) else None
  }

  /** `lookup.iter().find(|m| m.token == token)`: the tag of the first morpheme with that
      token. */
  function FirstTag(lookup: seq<Morpheme>, token: string): (r: Option<string>)
    ensures r.None? <==> forall k :: 0 <= k < |lookup| ==> lookup[k].token != token
    ensures r.Some? ==>
              exists k :: 0 <= k < |lookup| && lookup[k].token == token && lookup[k].tag == r.value
                          && forall q :: 0 <= q < k ==> lookup[q].token != token
    decreases |lookup|
  {
    if lookup == [] then None
    else if lookup[0].token == token then Some(lookup[0].tag)
    else
      var r := FirstTag(lookup[1..], token);
      if r.Some? then
        var k :| 1 <= k + 1 < |lookup| && lookup[1..][k].token == token && lookup[1..][k].tag == r.value
                 && forall q :: 0 <= q < k ==> lookup[1..][q].token != token;
        assert forall q :: 0 <= q < k + 1 ==> lookup[q].token != token by {
          forall q | 0 <= q < k + 1
            ensures lookup[q].token != token
          {
            if q > 0 {
              assert lookup[q] == lookup[1..][q - 1];
            }
          }
        }
        r
      else
        assert forall k :: 0 <= k < |lookup| ==> lookup[k].token != token by {
          forall k | 0 <= k < |lookup|
            ensures lookup[k].token != token
          {
            if k > 0 {
              assert lookup[k] == lookup[1..][k - 1];
            }
          }
        }
        r
  }

  /** One '+'-separated piece `token[/tag[/...]]`. With a lookup, a missing or "*" tag is
      taken from the lookup, and a token the lookup lacks is an error; otherwise an explicit
      tag is kept as written, and a missing one is an error. */
  function ParsePiece(piece: string, lookup: Option<seq<Morpheme>>): Result<Morpheme, ParseError> {
    var parts := Split(piece, '/');
    var token := parts[0];
    if lookup.Some? && (|parts| == 1 || parts[1] == "*") then
      match FirstTag(lookup.value, token)
      case None => Err(ParseError(piece))
      case Some(tag) => Ok(Morpheme(token, tag))
    else if |parts| >= 2 then Ok(Morpheme(token, parts[1]))
    else Err(ParseError(piece))
  }

  /** How a piece's tag is resolved. */
  lemma PieceTags(piece: string, lookup: Option<seq<Morpheme>>)
    ensures ParsePiece(piece, lookup).Ok? ==> ParsePiece(piece, lookup).value.token == Split(piece, '/')[0]
    ensures |Split(piece, '/')| >= 2 && (lookup.None? || Split(piece, '/')[1] != "*") ==>
              ParsePiece(piece, lookup) == Ok(Morpheme(Split(piece, '/')[0], Split(piece, '/')[1]))
    ensures |Split(piece, '/')| == 1 && lookup.None? ==> ParsePiece(piece, lookup) == Err(ParseError(piece))
    ensures lookup.Some? && (|Split(piece, '/')| == 1 || Split(piece, '/')[1] == "*") ==>
              (ParsePiece(piece, lookup).Ok? <==>
                 exists k :: 0 <= k < |lookup.value| && lookup.value[k].token == Split(piece, '/')[0])
              && (ParsePiece(piece, lookup).Ok? ==>
                    exists k :: 0 <= k < |lookup.value| && lookup.value[k].token == Split(piece, '/')[0]
                                && ParsePiece(piece, lookup).value.tag == lookup.value[k].tag
                                && forall q :: 0 <= q < k ==> lookup.value[q].token != Split(piece, '/')[0])
  {
  }

  /** `.map(..).collect::<Result<Vec<_>>>()`: every piece parsed, in order, or the error
      of the first piece that fails. */
  function ParsePieces(pieces: seq<string>, lookup: Option<seq<Morpheme>>): (r: Result<seq<Morpheme>, ParseError>)
    ensures r.Ok? ==> |r.value| == |pieces| && forall k :: 0 <= k < |pieces| ==> ParsePiece(pieces[k], lookup) == Ok(r.value[k])
    ensures r.Err? ==>
              exists k :: 0 <= k < |pieces| && ParsePiece(pieces[k], lookup) == Err(r.error)
                          && forall q :: 0 <= q < k ==> ParsePiece(pieces[q], lookup).Ok?
    decreases |pieces|
  {
    if pieces == [] then Ok([])
    else match ParsePiece(pieces[0], lookup)
      case Err(e) => Err(e)
      case Ok(m) =>
        var rest := ParsePieces(pieces[1..], lookup);
        if rest.Err? then
          var k :| 0 <= k < |pieces[1..]| && ParsePiece(pieces[1..][k], lookup) == Err(rest.error)
                   && forall q :: 0 <= q < k ==> ParsePiece(pieces[1..][q], lookup).Ok?;
          assert pieces[k + 1] == pieces[1..][k];
          assert forall q :: 0 <= q < k + 1 ==> ParsePiece(pieces[q], lookup).Ok? by {
            forall q | 0 <= q < k + 1
              ensures ParsePiece(pieces[q], lookup).Ok?
            {
              if q > 0 {
                assert pieces[q] == pieces[1..][q - 1];
              }
            }
          }
          Err(rest.error)
        else
          assert forall k :: 0 <= k < |pieces| ==> ParsePiece(pieces[k], lookup) == Ok(([m] + rest.value)[k]) by {
            forall k | 0 <= k < |pieces|
              ensures ParsePiece(pieces[k], lookup) == Ok(([m] + rest.value)[k])
            {
              if k > 0 {
                assert pieces[k] == pieces[1..][k - 1];
              }
            }
          }
          Ok([m] + rest.value)
  }

  /** `parse_morphemes`: "*" is no morphemes; anything else is its '+'-separated pieces. */
  function ParseMorphemes(s: string, lookup: Option<seq<Morpheme>>): (r: Result<Option<seq<Morpheme>>, ParseError>)
    ensures s == "*" ==> r == Ok(None)
    ensures s != "*" && r.Ok? ==>
              r.value.Some? && |r.value.value| == |Split(s, '+')|
              && forall k :: 0 <= k < |Split(s, '+')| ==> ParsePiece(Split(s, '+')[k], lookup) == Ok(r.value.value[k])
    ensures s != "*" && r.Err? ==> exists k :: 0 <= k < |Split(s, '+')| && ParsePiece(Split(s, '+')[k], lookup) == Err(r.error)
  {
    if s == "*" then Ok(None)
    else
      match ParsePieces(Split(s, '+'), lookup)
      case Err(e) => Err(e)
      case Ok(ms) => Ok(Some(ms))
  }

  /** The morpheme field, resolved through the detail field when there is one: the detail
      is parsed without a lookup and is the lookup for the simple field. */
  function ResolveMorphemes(fields: seq<string>): (r: Result<Option<seq<Morpheme>>, ParseError>)
    requires |fields| >= 8
    ensures |fields| == 8 ==> r == ParseMorphemes(fields[7], None)
    ensures |fields| >= 9 && ParseMorphemes(fields[8], None).Err? ==> r == Err(ParseMorphemes(fields[8], None).error)
    ensures |fields| >= 9 && ParseMorphemes(fields[8], None).Ok? ==> r == ParseMorphemes(fields[7], ParseMorphemes(fields[8], None).value)
  {
    if |fields| >= 9 then
      match ParseMorphemes(fields[8], None)
      case Err(e) => Err(e)
      case Ok(lookup) => ParseMorphemes(fields[7], lookup)
    else ParseMorphemes(fields[7], None)
  }

  /** `Analytics::parse`: the surface before the first tab; the features after it, split
      at ','. A line without a tab, or with fewer than eight features, is an error carrying
      the whole line. */
  function Parse(s: string): (r: Result<Analytics, ParseError>)
    ensures r.Ok? ==> '\t' in s && '\t' !in r.value.token && |r.value.token| < |s|
    ensures r.Ok? ==> |r.value.tags| >= 1 && forall k :: 0 <= k < |r.value.tags| ==> '+' !in r.value.tags[k]
  {
    var sp := Split(s, '\t');
    if |sp| < 2 then Err(ParseError(s))
    else
      var fields := Split(sp[1], ',');
      if |fields| < 8 then Err(ParseError(s))
      else
        match ResolveMorphemes(fields)
        case Err(e) => Err(e)
        case Ok(morphemes) =>
          JoinSplit(s, '\t');
          assert '\t' in s by {
            if '\t' !in s {
              SplitNoSep(s, '\t');
            }
          }
          Ok(Analytics(sp[0], Split(fields[0], '+'), AsteriskAsNone(fields[1]), SupportFlag(fields[2]),
                       AsteriskAsNone(fields[3]), AsteriskAsNone(fields[4]), AsteriskAsNone(fields[5]),
                       AsteriskAsNone(fields[6]), morphemes))
  }

  /** Without a tab, or with fewer than eight features, the line is rejected as a whole. */
  lemma ParseRejectsShortLines(s: string)
    ensures '\t' !in s ==> Parse(s) == Err(ParseError(s))
    ensures |Split(s, '\t')| >= 2 && |Split(Split(s, '\t')[1], ',')| < 8 ==> Parse(s) == Err(ParseError(s))
  {
    if '\t' !in s {
      SplitNoSep(s, '\t');
    }
  }

  /** A line with a tab and at least eight features: the tags are the first feature split
      at '+', the next six features are read as optional fields and the final-consonant
      flag, and the line fails exactly when its morpheme fields fail, with their error. */
  lemma ParseFields(s: string)
    requires |Split(s, '\t')| >= 2 && |Split(Split(s, '\t')[1], ',')| >= 8
    ensures var fields := Split(Split(s, '\t')[1], ',');
            Parse(s).Err? <==> ResolveMorphemes(fields).Err?
    ensures var fields := Split(Split(s, '\t')[1], ',');
            ResolveMorphemes(fields).Err? ==> Parse(s) == Err(ResolveMorphemes(fields).error)
    ensures var fields := Split(Split(s, '\t')[1], ',');
            ResolveMorphemes(fields).Ok? ==>
              Parse(s) == Ok(Analytics(Split(s, '\t')[0], Split(fields[0], '+'), AsteriskAsNone(fields[1]),
                                       SupportFlag(fields[2]), AsteriskAsNone(fields[3]), AsteriskAsNone(fields[4]),
                                       AsteriskAsNone(fields[5]), AsteriskAsNone(fields[6]), ResolveMorphemes(fields).value))
  {
  }

  // Writing a line back: the partner of `Parse`

  function RenderOption(o: Option<string>): string {
    o.GetOr("*")
  }

  function RenderSupport(b: Option<bool>): string {
    match b
    case Some(true) => "T"
    case Some(false) => "F"
    case None => "*"
  }

  function RenderMorpheme(m: Morpheme): string {
    m.token + "/" + m.tag
  }

  function RenderPieces(ms: seq<Morpheme>): (r: seq<string>)
    ensures |r| == |ms|
  {
    seq(|ms|, k requires 0 <= k < |ms| => RenderMorpheme(ms[k]))
  }

  function RenderMorphemes(morphemes: Option<seq<Morpheme>>): string {
    if morphemes.None? then "*" else Join(RenderPieces(morphemes.value), '+')
  }

  /** The eight features of an analysis, as the tagger writes them. */
  function Features(a: Analytics): seq<string> {
    [Join(a.tags, '+'), RenderOption(a.semanticGroup), RenderSupport(a.hasSupport), RenderOption(a.pronounce),
     RenderOption(a.kind), RenderOption(a.leftTag), RenderOption(a.rightTag), RenderMorphemes(a.morphemes)]
  }

  /** The output line for an analysis. */
  function Render(a: Analytics): string {
    a.token + "\t" + Join(Features(a), ',')
  }

  /** Text that fits inside one feature. */
  predicate Plain(s: string) {
    ',' !in s && '\t' !in s
  }

  predicate FieldFits(o: Option<string>) {
    o.Some? ==> o.value != "*" && Plain(o.value)
  }

  predicate MorphemeFits(m: Morpheme) {
    Plain(m.token) && Plain(m.tag) && '/' !in m.token && '/' !in m.tag && '+' !in m.token && '+' !in m.tag
  }

  /** The analyses a line can carry: no separator inside a field, no "*" standing for a
      present value, at least one tag, and at least one morpheme when there are any. */
  predicate Representable(a: Analytics) {
    && '\t' !in a.token
    && |a.tags| >= 1
    && (forall k :: 0 <= k < |a.tags| ==> Plain(a.tags[k]) && '+' !in a.tags[k])
    && FieldFits(a.semanticGroup) && FieldFits(a.pronounce) && FieldFits(a.kind)
    && FieldFits(a.leftTag) && FieldFits(a.rightTag)
    && (a.morphemes.Some? ==> |a.morphemes.value| >= 1 && forall k :: 0 <= k < |a.morphemes.value| ==> MorphemeFits(a.morphemes.value[k]))
  }

  lemma {:induction false} PiecesRoundTrip(ms: seq<Morpheme>)
    requires forall k :: 0 <= k < |ms| ==> MorphemeFits(ms[k])
    ensures ParsePieces(RenderPieces(ms), None) == Ok(ms)
    decreases |ms|
  {
    if ms != [] {
      var m := ms[0];
      SplitNoSep(m.tag, '/');
      SplitPiecePrefix(m.token, m.tag, '/');
      assert RenderMorpheme(m) == m.token + ['/'] + m.tag;
      assert RenderPieces(ms)[1..] == RenderPieces(ms[1..]);
      PiecesRoundTrip(ms[1..]);
      assert [m] + ms[1..] == ms;
    }
  }

  lemma MorphemesRoundTrip(morphemes: Option<seq<Morpheme>>)
    requires morphemes.Some? ==> |morphemes.value| >= 1 && forall k :: 0 <= k < |morphemes.value| ==> MorphemeFits(morphemes.value[k])
    ensures Plain(RenderMorphemes(morphemes))
    ensures ParseMorphemes(RenderMorphemes(morphemes), None) == Ok(morphemes)
  {
    if morphemes.Some? {
      var ms := morphemes.value;
      var pieces := RenderPieces(ms);
      forall k | 0 <= k < |pieces|
        ensures '+' !in pieces[k] && ',' !in pieces[k] && '\t' !in pieces[k]
      {
        assert pieces[k] == ms[k].token + "/" + ms[k].tag;
      }
      assert '/' in pieces[0] by {
        assert pieces[0] == ms[0].token + "/" + ms[0].tag;
        assert pieces[0][|ms[0].token|] == '/';
      }
      JoinHasFirst(pieces, '+', '/');
      JoinFreeOf(pieces, '+', ',');
      JoinFreeOf(pieces, '+', '\t');
      SplitJoin(pieces, '+');
      PiecesRoundTrip(ms);
    }
  }

  lemma OptionRoundTrip(o: Option<string>)
    requires FieldFits(o)
    ensures AsteriskAsNone(RenderOption(o)) == o
  {
  }

  /** The line splits at the tab into the surface and the features, and the features
      split at ',' into the eight fields. */
  lemma RenderSplits(a: Analytics)
    requires Representable(a)
    ensures Split(Render(a), '\t') == [a.token, Join(Features(a), ',')]
    ensures Split(Join(Features(a), ','), ',') == Features(a)
  {
    var features := Features(a);
    JoinFreeOf(a.tags, '+', ',');
    JoinFreeOf(a.tags, '+', '\t');
    MorphemesRoundTrip(a.morphemes);
    assert forall k :: 0 <= k < |features| ==> Plain(features[k]);
    SplitJoin(features, ',');
    JoinFreeOf(features, ',', '\t');
    SplitJoin([a.token, Join(features, ',')], '\t');
    assert Join([a.token, Join(features, ',')], '\t') == Render(a);
  }

  /** Parsing the line written for a representable analysis gives the analysis back. */
  lemma ParseRender(a: Analytics)
    requires Representable(a)
    ensures Parse(Render(a)) == Ok(a)
  {
    RenderSplits(a);
    SplitJoin(a.tags, '+');
    MorphemesRoundTrip(a.morphemes);
    OptionRoundTrip(a.semanticGroup);
    OptionRoundTrip(a.pronounce);
    OptionRoundTrip(a.kind);
    OptionRoundTrip(a.leftTag);
    OptionRoundTrip(a.rightTag);
    assert SupportFlag(RenderSupport(a.hasSupport)) == a.hasSupport;
    assert ResolveMorphemes(Features(a)) == Ok(a.morphemes);
  }

  // Lines with a detail field

  /** The simple morpheme field of a line that also carries the detail: every token with
      the "*" tag, to be resolved through the detail. */
  function StarPieces(ms: seq<Morpheme>): (r: seq<string>)
    ensures |r| == |ms|
  {
    seq(|ms|, k requires 0 <= k < |ms| => ms[k].token + "/*")
  }

  predicate DistinctTokens(ms: seq<Morpheme>) {
    forall i, j :: 0 <= i < j < |ms| ==> ms[i].token != ms[j].token
  }

  /** The nine features of an analysis whose morphemes the tagger writes twice: the simple
      field with "*" tags, then the detail field with the tags. */
  function DetailedFeatures(a: Analytics): seq<string>
    requires a.morphemes.Some?
  {
    Features(a)[..7] + [Join(StarPieces(a.morphemes.value), '+'), RenderMorphemes(a.morphemes)]
  }

  function RenderDetailed(a: Analytics): string
    requires a.morphemes.Some?
  {
    a.token + "\t" + Join(DetailedFeatures(a), ',')
  }

  /** A "*"-tagged piece takes the tag of its token's morpheme in the detail. */
  lemma StarPieceResolves(ms: seq<Morpheme>, k: int)
    requires 0 <= k < |ms| && MorphemeFits(ms[k]) && DistinctTokens(ms)
    ensures ParsePiece(StarPieces(ms)[k], Some(ms)) == Ok(ms[k])
  {
    var tok := ms[k].token;
    assert StarPieces(ms)[k] == tok + ['/'] + "*";
    SplitNoSep("*", '/');
    SplitPiecePrefix(tok, "*", '/');
    var t := FirstTag(ms, tok);
    assert t.Some?;
    var j :| 0 <= j < |ms| && ms[j].token == tok && ms[j].tag == t.value;
    assert j == k;
  }

  /** Pieces that each parse to the corresponding morpheme parse together to all of them. */
  lemma PiecesParseTo(pieces: seq<string>, lookup: Option<seq<Morpheme>>, ms: seq<Morpheme>)
    requires |pieces| == |ms|
    requires forall k :: 0 <= k < |pieces| ==> ParsePiece(pieces[k], lookup) == Ok(ms[k])
    ensures ParsePieces(pieces, lookup) == Ok(ms)
  {
    var r := ParsePieces(pieces, lookup);
    assert r.Ok?;
    assert r.value == ms;
  }

  /** The detail field resolves the "*"-tagged simple field back to the morphemes. */
  lemma DetailResolvesStars(ms: seq<Morpheme>)
    requires |ms| >= 1 && DistinctTokens(ms)
    requires forall k :: 0 <= k < |ms| ==> MorphemeFits(ms[k])
    ensures Plain(Join(StarPieces(ms), '+'))
    ensures ParseMorphemes(Join(StarPieces(ms), '+'), Some(ms)) == Ok(Some(ms))
  {
    var pieces := StarPieces(ms);
    forall k | 0 <= k < |pieces|
      ensures '+' !in pieces[k] && ',' !in pieces[k] && '\t' !in pieces[k]
      ensures ParsePiece(pieces[k], Some(ms)) == Ok(ms[k])
    {
      assert pieces[k] == ms[k].token + "/*";
      StarPieceResolves(ms, k);
    }
    assert '/' in pieces[0] by {
      assert pieces[0] == ms[0].token + "/*";
      assert pieces[0][|ms[0].token|] == '/';
    }
    JoinHasFirst(pieces, '+', '/');
    JoinFreeOf(pieces, '+', ',');
    JoinFreeOf(pieces, '+', '\t');
    SplitJoin(pieces, '+');
    PiecesParseTo(pieces, Some(ms), ms);
  }

  /** A line carrying the detail field after a "*"-tagged simple field parses to the
      analysis, every morpheme's tag resolved through the detail. */
  lemma ParseRenderDetailed(a: Analytics)
    requires Representable(a) && a.morphemes.Some? && DistinctTokens(a.morphemes.value)
    ensures |Split(RenderDetailed(a), '\t')| == 2 && |Split(Split(RenderDetailed(a), '\t')[1], ',')| == 9
    ensures Parse(RenderDetailed(a)) == Ok(a)
  {
    var ms := a.morphemes.value;
    var features := DetailedFeatures(a);
    JoinFreeOf(a.tags, '+', ',');
    JoinFreeOf(a.tags, '+', '\t');
    MorphemesRoundTrip(a.morphemes);
    DetailResolvesStars(ms);
    assert forall k :: 0 <= k < |features| ==> Plain(features[k]);
    SplitJoin(features, ',');
    JoinFreeOf(features, ',', '\t');
    SplitJoin([a.token, Join(features, ',')], '\t');
    assert Join([a.token, Join(features, ',')], '\t') == RenderDetailed(a);
    SplitJoin(a.tags, '+');
    OptionRoundTrip(a.semanticGroup);
    OptionRoundTrip(a.pronounce);
    OptionRoundTrip(a.kind);
    OptionRoundTrip(a.leftTag);
    OptionRoundTrip(a.rightTag);
    assert SupportFlag(RenderSupport(a.hasSupport)) == a.hasSupport;
    assert ResolveMorphemes(features) == Ok(a.morphemes);
  }

  /** A proper noun registered with `mecab_csv_nnp_format` and reported by the tagger with
      the dictionary line's features (its fields 4 to 11) reads back as that noun, tagged NNP,
      with its final-consonant flag and itself as the reading. */
  lemma RegisteredNounReadsBack(nnp: string)
    requires nnp != [] && Plain(nnp) && nnp != "*"
    ensures MecabCsvNnpFormat(nnp).Ok?
    ensures Split(MecabCsvNnpFormat(nnp).value, ',') == NnpFields(nnp)
    ensures Parse(nnp + "\t" + Join(NnpFields(nnp)[4..], ','))
         == Ok(Analytics(nnp, ["NNP"], None, Some(HasSupport(nnp[|nnp| - 1])), Some(nnp), None, None, None, None))
  {
    NnpFormatFields(nnp);
    var a := Analytics(nnp, ["NNP"], None, Some(HasSupport(nnp[|nnp| - 1])), Some(nnp), None, None, None, None);
    assert Join(a.tags, '+') == "NNP";
    assert Features(a) == NnpFields(nnp)[4..];
    ParseRender(a);
  }
}
