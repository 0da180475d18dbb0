/** Accept-header negotiation (`packages/adapters/renderer_negotiation.py`), section 12.5.1 of RFC 9110. */
module RendererNegotiation {
  import opened Prelude
  import opened Text
  import opened Sorting

  /** `float(text)`; `None` where it raises ValueError. NaN and the infinities are not part of this model. */
  type FloatParser = string -> Option<real>

  /** Raised by `segments[0]` for a part that has nothing between its semicolons. */
  datatype NegotiationError = IndexError

  datatype Candidate = Candidate(index: nat, quality: real, mediaType: string)

  // ------------------------------------------------------------------ one comma-separated part

  function Segments(pieces: seq<string>): seq<string> {
    if pieces == [] then []
    else (if Blank(pieces[0]) then [] else [Strip(pieces[0])]) + Segments(pieces[1..])
  }

  predicate IsQuality(param: string) {
    "q=" <= param
  }

  /** The last q parameter decides; a malformed one counts as 1. */
  function Quality(params: seq<string>, floats: FloatParser): real {
    if params == [] then 1.0
    else
      var last := params[|params| - 1];
      if !IsQuality(last) then Quality(params[..|params| - 1], floats)
      else match floats(last[2..]) case Some(q) => q case None => 1.0
  }

  function KeptParams(params: seq<string>): seq<string> {
    if params == [] then []
    else
      var last := params[|params| - 1];
      KeptParams(params[..|params| - 1]) + if IsQuality(last) then [] else [last]
  }

  function JoinParams(params: seq<string>): string {
    if params == [] then "" else "; " + params[0] + JoinParams(params[1..])
  }

  predicate Malformed(part: string) {
    !Blank(part) && Segments(Split(Strip(part), ';')) == []
  }

  /** What a part offers: nothing when it is blank or its quality is not positive. */
  function Offer(part: string, index: nat, floats: FloatParser): Option<Candidate> {
    var segments := Segments(Split(Strip(part), ';'));
    if Blank(part) || segments == [] then None
    else
      var quality := Quality(segments[1..], floats);
      if quality <= 0.0 then None
      else Some(Candidate(index, quality, Lower(segments[0]) + JoinParams(KeptParams(segments[1..]))))
  }

  method ParsePart(part: string, index: nat, floats: FloatParser)
    returns (r: Result<Option<Candidate>, NegotiationError>)
    ensures r.Err? <==> Malformed(part)
    ensures r.Ok? ==> r.value == Offer(part, index, floats)
  {
    if Strip(part) == "" { return Ok(None); }
    var segments := Segments(Split(Strip(part), ';'));
    if segments == [] { return Err(IndexError); }
    var params := segments[1..];
    var quality := 1.0;
    var kept: seq<string> := [];
    for i := 0 to |params|
      invariant quality == Quality(params[..i], floats) && kept == KeptParams(params[..i])
    {
      assert params[..i + 1][..i] == params[..i];
      var param := params[i];
      if IsQuality(param) {
        var q := floats(param[2..]);
        quality := if q.Some? then q.value else 1.0;
      } else {
        kept := kept + [param];
      }
    }
    assert params[..|params|] == params;
    if quality <= 0.0 { return Ok(None); }
    return Ok(Some(Candidate(index, quality, Lower(segments[0]) + JoinParams(kept))));
  }

  /** A part of semicolons only has no segment to index. */
  lemma SemicolonIsMalformed()
    ensures Malformed(";")
  {
    assert ";"[1..] == "" && Split(";", ';') == [""] + Split("", ';');
    assert Segments(["", ""]) == Segments([""]) && [""][1..] == [];
  }

  // ------------------------------------------------------------------ the whole header

  /** Greater quality first, earlier part first at equal quality. */
  function Preference(): (Candidate, Candidate) -> bool {
    (a: Candidate, b: Candidate) => a.quality > b.quality || (a.quality == b.quality && a.index <= b.index)
  }

  predicate Offered(parts: seq<string>, floats: FloatParser, c: Candidate) {
    c.index < |parts| && Offer(parts[c.index], c.index, floats) == Some(c)
  }

  predicate SomeMalformed(parts: seq<string>) {
    exists i :: 0 <= i < |parts| && Malformed(parts[i])
  }

  /** `parse_accept_header`: exactly the offers, in order of preference. */
  method ParseAcceptHeader(accept: string, floats: FloatParser) returns (r: Result<seq<Candidate>, NegotiationError>)
    ensures r.Err? <==> SomeMalformed(Split(accept, ','))
    ensures r.Ok? ==> Sorted(r.value, Preference()) && forall c :: c in r.value ==> multiset(r.value)[c] == 1
    ensures r.Ok? ==> forall c :: c in r.value <==> Offered(Split(accept, ','), floats, c)
  {
    if accept == "" || Strip(accept) == "" {
      BlankIsOnePart(accept, ',');
      return Ok([]);
    }
    var collected := CollectOffers(Split(accept, ','), floats);
    if collected.Err? { return Err(collected.error); }
    var entries := collected.value;
    SortSorts(entries, Preference());
    SortPermutes(entries, Preference());
    SortKeepsMembers(entries, Preference());
    return Ok(Sort(entries, Preference()));
  }

  predicate Parsed(parts: seq<string>, floats: FloatParser, j: nat, offer: Option<Candidate>)
    requires j < |parts|
  {
    !Malformed(parts[j]) && offer == Offer(parts[j], j, floats)
  }

  method CollectOffers(parts: seq<string>, floats: FloatParser) returns (r: Result<seq<Candidate>, NegotiationError>)
    ensures r.Err? <==> SomeMalformed(parts)
    ensures r.Ok? ==> forall c :: c in r.value <==> Offered(parts, floats, c)
    ensures r.Ok? ==> forall c :: c in r.value ==> multiset(r.value)[c] == 1
  {
    var entries: seq<Candidate> := [];
    ghost var offers: seq<Option<Candidate>> := [];
    for i := 0 to |parts|
      invariant OffersOf(parts, i, floats, offers)
      invariant forall c :: c in entries <==> Some(c) in offers
      invariant forall c :: c in entries ==> c.index < i && multiset(entries)[c] == 1
    {
      var parsed := ParsePart(parts[i], i, floats);
      if parsed.Err? { return Err(parsed.error); }
      offers := OneMoreOffer(parts, i, floats, offers, parsed.value);
      if parsed.value.Some? {
        entries := entries + [parsed.value.value];
      }
    }
    forall c ensures c in entries <==> Offered(parts, floats, c) {
      OffersAreIndexed(parts, floats, offers, c);
    }
    NoneMalformed(parts, floats, offers);
    return Ok(entries);
  }

  ghost predicate OffersOf(parts: seq<string>, n: nat, floats: FloatParser, offers: seq<Option<Candidate>>)
    requires n <= |parts|
  {
    |offers| == n && forall j {:trigger Parsed(parts, floats, j, offers[j])} :: 0 <= j < n ==>
      Parsed(parts, floats, j, offers[j])
  }

  lemma OneMoreOffer(
    parts: seq<string>, n: nat, floats: FloatParser, offers: seq<Option<Candidate>>, offer: Option<Candidate>)
    returns (more: seq<Option<Candidate>>)
    requires n < |parts| && OffersOf(parts, n, floats, offers) && Parsed(parts, floats, n, offer)
    ensures more == offers + [offer] && OffersOf(parts, n + 1, floats, more)
  {
    more := offers + [offer];
    forall j: nat | j < n + 1 ensures Parsed(parts, floats, j, more[j]) {
      if j < n { assert Parsed(parts, floats, j, offers[j]); }
    }
  }

  lemma NoneMalformed(parts: seq<string>, floats: FloatParser, offers: seq<Option<Candidate>>)
    requires OffersOf(parts, |parts|, floats, offers)
    ensures !SomeMalformed(parts)
  {
    forall j | 0 <= j < |parts| ensures !Malformed(parts[j]) { assert Parsed(parts, floats, j, offers[j]); }
  }

  lemma OffersAreIndexed(parts: seq<string>, floats: FloatParser, offers: seq<Option<Candidate>>, c: Candidate)
    requires OffersOf(parts, |parts|, floats, offers)
    ensures Some(c) in offers <==> Offered(parts, floats, c)
  {
    if Some(c) in offers {
      var j: nat :| j < |offers| && offers[j] == Some(c);
      assert Parsed(parts, floats, j, offers[j]) && c.index == j;
    }
    if Offered(parts, floats, c) {
      assert Parsed(parts, floats, c.index, offers[c.index]);
    }
  }

  /** `MEDIA_TYPE_TO_FORMAT`. */
  const FORMATS: map<string, string> := map[
    "application/json" := "json", "text/csv" := "csv",
    "application/vnd.apache.parquet" := "parquet", "application/x-parquet" := "parquet",
    "text/plain; version=0.0.4" := "prometheus", "text/plain" := "prometheus"]

  /** `_match_format`. */
  function MatchFormat(mediaType: string): Option<string> {
    if mediaType == "*/*" || mediaType == "application/*" then Some("json")
    else if mediaType == "text/*" then Some("csv")
    else if mediaType in FORMATS then Some(FORMATS[mediaType])
    else None
  }

  function FormatOf(c: Candidate): Option<string> {
    MatchFormat(Strip(Split(c.mediaType, ';')[0]))
  }

  // ------------------------------------------------------------------ an offer as a client writes it

  /** A media type or parameter with nothing to strip or to split. */
  predicate Plain(piece: string) {
    piece != "" && !IsSpace(piece[0]) && !IsSpace(piece[|piece| - 1]) && ';' !in piece
  }

  function Print(mediaType: string, params: seq<string>): string {
    if params == [] then mediaType else Print(mediaType, params[..|params| - 1]) + "; " + params[|params| - 1]
  }

  function Pieces(mediaType: string, params: seq<string>): seq<string> {
    [mediaType] + seq(|params|, i requires 0 <= i < |params| => " " + params[i])
  }

  lemma {:induction false} PrintSplits(mediaType: string, params: seq<string>)
    requires Plain(mediaType) && forall i :: 0 <= i < |params| ==> Plain(params[i])
    ensures Split(Print(mediaType, params), ';') == Pieces(mediaType, params)
    ensures Strip(Print(mediaType, params)) == Print(mediaType, params) != ""
    decreases |params|
  {
    var s := Print(mediaType, params);
    if params == [] {
      SplitWithoutSeparator(mediaType, ';');
    } else {
      var n := |params| - 1;
      var front := Print(mediaType, params[..n]);
      PrintSplits(mediaType, params[..n]);
      PrintStartsPlain(mediaType, params[..n]);
      assert s == front + [';'] + (" " + params[n]);
      SplitJoins(front, ';', " " + params[n]);
      SplitWithoutSeparator(" " + params[n], ';');
      assert Pieces(mediaType, params) == Pieces(mediaType, params[..n]) + [" " + params[n]];
    }
    PrintStartsPlain(mediaType, params);
    TrimmedIsStripped(s);
  }

  lemma {:induction false} PrintStartsPlain(mediaType: string, params: seq<string>)
    requires Plain(mediaType)
    ensures mediaType <= Print(mediaType, params)
    decreases |params|
  {
    if params == [] {
    } else {
      PrintStartsPlain(mediaType, params[..|params| - 1]);
    }
  }

  lemma {:induction false} SegmentsOfPieces(params: seq<string>)
    requires forall i :: 0 <= i < |params| ==> Plain(params[i])
    ensures Segments(seq(|params|, i requires 0 <= i < |params| => " " + params[i])) == params
    decreases |params|
  {
    var pieces := seq(|params|, i requires 0 <= i < |params| => " " + params[i]);
    if params == [] {
    } else {
      SegmentsOfPieces(params[1..]);
      assert pieces[1..] == seq(|params| - 1, i requires 0 <= i < |params| - 1 => " " + params[1..][i]);
      SpaceIsStripped(params[0]);
    }
  }

  lemma SpaceIsStripped(piece: string)
    requires Plain(piece)
    ensures Strip(" " + piece) == piece == Strip(piece)
  {
    assert (" " + piece)[1..] == piece;
    TrimmedIsStripped(piece);
  }

  lemma {:induction false} KeptWithoutQuality(params: seq<string>)
    requires forall i :: 0 <= i < |params| ==> !("q=" <= params[i])
    ensures KeptParams(params) == params
    decreases |params|
  {
    if params == [] {
    } else {
      KeptWithoutQuality(params[..|params| - 1]);
      assert params == params[..|params| - 1] + [params[|params| - 1]];
    }
  }

  lemma {:induction false} PrintJoins(mediaType: string, params: seq<string>)
    ensures mediaType + JoinParams(params) == Print(mediaType, params)
    decreases |params|
  {
    if params == [] {
    } else {
      var n := |params| - 1;
      PrintJoins(mediaType, params[..n]);
      JoinOneMore(params[..n], params[n]);
      assert params == params[..n] + [params[n]];
    }
  }

  lemma {:induction false} JoinOneMore(params: seq<string>, last: string)
    ensures JoinParams(params + [last]) == JoinParams(params) + "; " + last
    decreases |params|
  {
    if params == [] {
      assert [last][1..] == [];
    } else {
      JoinOneMore(params[1..], last);
      assert (params + [last])[1..] == params[1..] + [last];
    }
  }

  /** `j` is the last quality parameter. */
  predicate LastQuality(params: seq<string>, j: int) {
    0 <= j < |params| && "q=" <= params[j] && forall k :: j < k < |params| ==> !("q=" <= params[k])
  }

  function QualityOf(param: string, floats: FloatParser): real {
    if |param| < 2 then 1.0 else match floats(param[2..]) case Some(q) => q case None => 1.0
  }

  lemma {:induction false} QualityIsLast(params: seq<string>, floats: FloatParser, j: int)
    requires LastQuality(params, j)
    ensures Quality(params, floats) == QualityOf(params[j], floats)
    decreases |params|
  {
    var n := |params| - 1;
    if j < n { QualityIsLast(params[..n], floats, j); }
  }

  lemma {:induction false} QualityIsOne(params: seq<string>, floats: FloatParser)
    requires forall i :: 0 <= i < |params| ==> !("q=" <= params[i])
    ensures Quality(params, floats) == 1.0
    decreases |params|
  {
    if params == [] {
    } else {
      QualityIsOne(params[..|params| - 1], floats);
    }
  }

  lemma {:induction false} LowerKeepsPlain(s: string)
    ensures |Lower(s)| == |s| && forall i :: 0 <= i < |s| ==>
              (IsSpace(Lower(s)[i]) <==> IsSpace(s[i])) && (Lower(s)[i] == ';' <==> s[i] == ';')
    decreases |s|
  {
    if s == "" {
    } else {
      LowerKeepsPlain(s[1..]);
    }
  }

  lemma {:induction false} LowerStaysPlain(mediaType: string)
    requires Plain(mediaType)
    ensures Plain(Lower(mediaType))
  {
    LowerKeepsPlain(mediaType);
    var name := Lower(mediaType);
    forall i | 0 <= i < |name| ensures name[i] != ';' { assert mediaType[i] in mediaType; }
  }

  lemma {:induction false} FirstOfSplit(name: string, params: seq<string>)
    requires ';' !in name
    ensures Split(name + JoinParams(params), ';')[0] == name
  {
    SplitWithoutSeparator(name, ';');
    if params == [] {
      assert name + JoinParams(params) == name;
    } else {
      var rest := JoinParams(params);
      assert name + rest == name + [';'] + rest[1..];
      SplitJoins(name, ';', rest[1..]);
    }
  }

  lemma {:induction false} FormatOfPrinted(c: Candidate, mediaType: string, params: seq<string>)
    requires Plain(mediaType) && c.mediaType == Lower(mediaType) + JoinParams(params)
    ensures FormatOf(c) == MatchFormat(Lower(mediaType))
  {
    LowerStaysPlain(mediaType);
    FirstOfSplit(Lower(mediaType), params);
    TrimmedIsStripped(Lower(mediaType));
  }

  lemma PrintedSegments(mediaType: string, params: seq<string>)
    requires Plain(mediaType) && forall i :: 0 <= i < |params| ==> Plain(params[i])
    ensures var part := Print(mediaType, params);
            !Blank(part) && Segments(Split(Strip(part), ';')) == [mediaType] + params
  {
    var pieces := Pieces(mediaType, params);
    PrintSplits(mediaType, params);
    SegmentsOfPieces(params);
    SpaceIsStripped(mediaType);
    assert pieces[1..] == seq(|params|, i requires 0 <= i < |params| => " " + params[i]);
  }

  lemma PrintedOffer(mediaType: string, params: seq<string>, index: nat, floats: FloatParser)
    requires Plain(mediaType) && forall i :: 0 <= i < |params| ==> Plain(params[i])
    ensures var part, q := Print(mediaType, params), Quality(params, floats);
            && !Malformed(part)
            && Offer(part, index, floats) ==
                 if q <= 0.0 then None
                 else Some(Candidate(index, q, Lower(mediaType) + JoinParams(KeptParams(params))))
  {
    PrintedSegments(mediaType, params);
    assert ([mediaType] + params)[1..] == params;
  }

  /**
   * What a written offer comes to: its quality is what its last q parameter says, 1 when there is none or
   * it is no number; it counts when that is positive; its format is that of its media type, in any case.
   */
  lemma WrittenOffers(mediaType: string, params: seq<string>, index: nat, floats: FloatParser)
    requires Plain(mediaType) && forall i :: 0 <= i < |params| ==> Plain(params[i])
    ensures !Malformed(Print(mediaType, params))
    ensures (forall i :: 0 <= i < |params| ==> !("q=" <= params[i])) ==>
              Offer(Print(mediaType, params), index, floats) ==
                Some(Candidate(index, 1.0, Print(Lower(mediaType), params)))
    ensures forall j :: LastQuality(params, j) ==>
              var offer, q := Offer(Print(mediaType, params), index, floats), QualityOf(params[j], floats);
              (offer.Some? <==> q > 0.0) && (offer.Some? ==> offer.value.quality == q && offer.value.index == index)
    ensures var offer := Offer(Print(mediaType, params), index, floats);
            offer.Some? ==> FormatOf(offer.value) == MatchFormat(Lower(mediaType))
  {
    var offer := Offer(Print(mediaType, params), index, floats);
    PrintedOffer(mediaType, params, index, floats);
    forall j | LastQuality(params, j) ensures Quality(params, floats) == QualityOf(params[j], floats) {
      QualityIsLast(params, floats, j);
    }
    if forall i :: 0 <= i < |params| ==> !("q=" <= params[i]) {
      QualityIsOne(params, floats);
      KeptWithoutQuality(params);
      PrintJoins(Lower(mediaType), params);
    }
    if offer.Some? { FormatOfPrinted(offer.value, mediaType, KeptParams(params)); }
  }

  /** Which media types give which format, wildcards included. */
  lemma FormatsAre(mediaType: string)
    requires ';' !in mediaType
    ensures MatchFormat(mediaType) == Some("json") <==> mediaType in {"application/json", "application/*", "*/*"}
    ensures MatchFormat(mediaType) == Some("csv") <==> mediaType in {"text/csv", "text/*"}
    ensures MatchFormat(mediaType) == Some("parquet") <==>
              mediaType in {"application/vnd.apache.parquet", "application/x-parquet"}
    ensures MatchFormat(mediaType) == Some("prometheus") <==> mediaType == "text/plain"
  {
    assert "text/plain; version=0.0.4"[10] == ';';
  }

  // ------------------------------------------------------------------ the choice

  datatype Choice = Choice(format: string, mediaType: string)

  /** `c` is recognised, and no recognised offer has a greater quality, or the same quality earlier in the header. */
  ghost predicate BestOffer(parts: seq<string>, floats: FloatParser, c: Candidate) {
    && Offered(parts, floats, c) && FormatOf(c).Some?
    && forall d :: Offered(parts, floats, d) && FormatOf(d).Some? ==>
         d.quality < c.quality || (d.quality == c.quality && c.index <= d.index)
  }

  /** The loop over the offers: how many there are before the first recognised one. */
  method CountUnrecognised(entries: seq<Candidate>) returns (i: nat)
    ensures i <= |entries| && (i < |entries| ==> FormatOf(entries[i]).Some?)
    ensures forall j :: 0 <= j < i ==> FormatOf(entries[j]).None?
  {
    i := 0;
    while i < |entries| && FormatOf(entries[i]).None?
      invariant i <= |entries| && forall j :: 0 <= j < i ==> FormatOf(entries[j]).None?
    {
      i := i + 1;
    }
  }

  /** `resolve_format_from_accept`. */
  method ResolveFormat(accept: string, floats: FloatParser) returns (r: Result<Option<Choice>, NegotiationError>)
    ensures Blank(accept) ==> r == Ok(Some(Choice("json", "application/json")))
    ensures !Blank(accept) ==> (r.Err? <==> SomeMalformed(Split(accept, ',')))
    ensures !Blank(accept) && r.Ok? && r.value.Some? ==>
              exists c :: BestOffer(Split(accept, ','), floats, c)
                && r.value.value == Choice(FormatOf(c).value, c.mediaType)
    ensures !Blank(accept) && r.Ok? && r.value.None? ==>
              forall c :: Offered(Split(accept, ','), floats, c) ==> FormatOf(c).None?
  {
    if accept == "" || Strip(accept) == "" { return Ok(Some(Choice("json", "application/json"))); }
    var parsed := ParseAcceptHeader(accept, floats);
    if parsed.Err? { return Err(parsed.error); }
    var entries := parsed.value;
    var i := CountUnrecognised(entries);
    if i < |entries| {
      FirstIsBest(Split(accept, ','), floats, entries, i);
      return Ok(Some(Choice(FormatOf(entries[i]).value, entries[i].mediaType)));
    }
    forall c | Offered(Split(accept, ','), floats, c) ensures FormatOf(c).None? {
      assert c in entries;
    }
    return Ok(None);
  }

  lemma LaterIsNoBetter(entries: seq<Candidate>, i: nat, j: nat)
    requires Sorted(entries, Preference()) && i <= j < |entries|
    ensures entries[j].quality < entries[i].quality
         || (entries[j].quality == entries[i].quality && entries[i].index <= entries[j].index)
  {
    if i < j { assert Preference()(entries[i], entries[j]); }
  }

  /** In preference order the first recognised offer is the best one. */
  lemma FirstIsBest(parts: seq<string>, floats: FloatParser, entries: seq<Candidate>, i: nat)
    requires Sorted(entries, Preference()) && forall c :: c in entries <==> Offered(parts, floats, c)
    requires i < |entries| && FormatOf(entries[i]).Some?
    requires forall j :: 0 <= j < i ==> FormatOf(entries[j]).None?
    ensures BestOffer(parts, floats, entries[i])
  {
    assert entries[i] in entries;
    forall d | Offered(parts, floats, d) && FormatOf(d).Some?
      ensures d.quality < entries[i].quality || (d.quality == entries[i].quality && entries[i].index <= d.index)
    {
      assert d in entries;
      var j :| 0 <= j < |entries| && entries[j] == d;
      LaterIsNoBetter(entries, i, j);
    }
  }
}
