/** Plain texts: the id and the record that a request to import one becomes. */
module PlainTexts {
  import opened Text
  import opened ChunkIds
  import opened Utf8
  import opened BatchRuns

  datatype PlainOptions = PlainOptions(
    chunkID: string, docID: string, title: string, url: string, pageNo: int, offsetBase: int, sourceType: string, lang: string,
    run: Options)

  // ---------------------------------------------------------------- given ids

  predicate IsIdChar(c: char, letterOrDigit: char -> bool) {
    letterOrDigit(c) || c == '_' || c == '-' || c == '.'
  }

  /** Letters, digits and `_-.` stay, blanks and slashes become underscores, all else is dropped. */
  function Sanitized(s: string, letterOrDigit: char -> bool): string {
    if s == "" then "" else Sanitized(s[..|s| - 1], letterOrDigit) + Kept(s[|s| - 1], letterOrDigit)
  }

  function Kept(c: char, letterOrDigit: char -> bool): (r: string)
    ensures |r| <= 1 && (r == [c] <==> IsIdChar(c, letterOrDigit)) && forall x :: x in r ==> IsIdChar(x, letterOrDigit)
  {
    if IsIdChar(c, letterOrDigit) then [c] else if c == ' ' || c == '/' || c == '\\' then "_" else ""
  }

  method SanitizeChunkID(s: string, letterOrDigit: char -> bool) returns (r: string)
    ensures r == Sanitized(s, letterOrDigit)
  {
    r := "";
    for i := 0 to |s|
      invariant r == Sanitized(s[..i], letterOrDigit)
    {
      assert s[..i + 1][..i] == s[..i];
      var c := s[i];
      if IsIdChar(c, letterOrDigit) {
        r := r + [c];
      } else if c == ' ' || c == '/' || c == '\\' {
        r := r + "_";
      }
    }
    assert s[..|s|] == s;
  }

  lemma NothingSanitized(letterOrDigit: char -> bool)
    ensures Sanitized("", letterOrDigit) == ""
  {
  }

  lemma SanitizedStep(s: string, c: char, letterOrDigit: char -> bool)
    ensures Sanitized(s + [c], letterOrDigit) == Sanitized(s, letterOrDigit) + Kept(c, letterOrDigit)
  {
    assert (s + [c])[..|s|] == s;
  }

  /** What is left are id characters, and ids made of them are left alone. */
  lemma {:induction false} SanitizedMeans(s: string, letterOrDigit: char -> bool)
    ensures forall c :: c in Sanitized(s, letterOrDigit) ==> IsIdChar(c, letterOrDigit)
    ensures Sanitized(s, letterOrDigit) == s <==> forall c :: c in s ==> IsIdChar(c, letterOrDigit)
    ensures |Sanitized(s, letterOrDigit)| <= |s|
  {
    hide IsIdChar, Kept, Sanitized;
    if s == "" {
      NothingSanitized(letterOrDigit);
    } else {
      var init, c := s[..|s| - 1], s[|s| - 1];
      var a, b := Sanitized(init, letterOrDigit), Kept(c, letterOrDigit);
      SanitizedMeans(init, letterOrDigit);
      SanitizedStep(init, c, letterOrDigit);
      assert s == init + [c];
      SameSum(a, b, init, [c]);
    }
  }

  lemma SameSum<T>(a: seq<T>, b: seq<T>, c: seq<T>, d: seq<T>)
    requires |a| <= |c| && |b| <= |d|
    ensures a + b == c + d <==> a == c && b == d
  {
    if a + b == c + d {
      assert |a + b| == |c + d|;
      assert (a + b)[..|a|] == a && (c + d)[..|c|] == c;
      assert (a + b)[|a|..] == b && (c + d)[|c|..] == d;
    }
  }

  /** An id of id characters, blanks and slashes keeps its length: only blanks and slashes change, to underscores. */
  lemma {:induction false} SanitizedInPlace(s: string, letterOrDigit: char -> bool)
    ensures |Sanitized(s, letterOrDigit)| == |s| <==>
      forall c :: c in s ==> IsIdChar(c, letterOrDigit) || c == ' ' || c == '/' || c == '\\'
    ensures |Sanitized(s, letterOrDigit)| == |s| ==> forall k :: 0 <= k < |s| ==>
      Sanitized(s, letterOrDigit)[k] == if IsIdChar(s[k], letterOrDigit) then s[k] else '_'
  {
    hide IsIdChar, Sanitized;
    if s == "" {
      NothingSanitized(letterOrDigit);
    } else {
      var init, c := s[..|s| - 1], s[|s| - 1];
      SanitizedInPlace(init, letterOrDigit);
      SanitizedMeans(init, letterOrDigit);
      SanitizedStep(init, c, letterOrDigit);
      assert s == init + [c];
    }
  }

  lemma SanitizeTwice(s: string, letterOrDigit: char -> bool)
    ensures Sanitized(Sanitized(s, letterOrDigit), letterOrDigit) == Sanitized(s, letterOrDigit)
  {
    SanitizedMeans(s, letterOrDigit);
    SanitizedMeans(Sanitized(s, letterOrDigit), letterOrDigit);
  }

  // ---------------------------------------------------------------- the record

  datatype PlainError = EmptyText | NoDocID | ChunkIDTooLong

  function PlainID(opt: PlainOptions, maxLen: nat, letterOrDigit: char -> bool): Result<ChunkId, PlainError> {
    var given := TrimSpace(opt.chunkID);
    if given == "" then
      if TrimSpace(opt.docID) == "" then Err(NoDocID) else Ok(StableChunkID(TrimSpace(opt.docID), opt.pageNo, 0))
    else
      var clean := Sanitized(given, letterOrDigit);
      if |Encode(clean)| > maxLen then Err(ChunkIDTooLong) else Ok(Plain(clean))
  }

  function OrElse(s: string, fallback: string): string {
    if s == "" then fallback else s
  }

  function PlainRecord(text: string, opt: PlainOptions, now: int, maxLen: nat, letterOrDigit: char -> bool)
    : Result<TextChunkLine, PlainError>
  {
    var id := PlainID(opt, maxLen, letterOrDigit);
    if TrimSpace(text) == "" then Err(EmptyText)
    else if id.Err? then Err(id.error)
    else Ok(TextChunkLine(
              id.value, TrimSpace(text), TrimSpace(opt.docID), TrimSpace(opt.title), TrimSpace(opt.url),
              if opt.pageNo < 0 then 0 else opt.pageNo, if opt.offsetBase < 0 then 0 else opt.offsetBase, 0, [],
              OrElse(TrimSpace(opt.sourceType), "default"), OrElse(TrimSpace(opt.lang), "und"), 0, TrimSpace(opt.run.jobID),
              TrimSpace(opt.run.taskID), "", now, now))
  }

  /** A request is refused exactly if its text is blank, if it names neither chunk nor document, or if its id is too long. */
  lemma WhenRefused(text: string, opt: PlainOptions, now: int, maxLen: nat, letterOrDigit: char -> bool)
    ensures var given, clean := TrimSpace(opt.chunkID), Sanitized(TrimSpace(opt.chunkID), letterOrDigit);
      PlainRecord(text, opt, now, maxLen, letterOrDigit).Err? <==>
      || TrimSpace(text) == ""
      || (given == "" && TrimSpace(opt.docID) == "")
      || (given != "" && |Encode(clean)| > maxLen)
  {
    hide TrimSpace, Encode, Sanitized;
  }

  /** Fields that are missing or negative: source type "default", language "und", page and offset zero. */
  lemma MissingFields(text: string, opt: PlainOptions, now: int, maxLen: nat, letterOrDigit: char -> bool)
    requires PlainRecord(text, opt, now, maxLen, letterOrDigit).Ok?
    ensures var rec := PlainRecord(text, opt, now, maxLen, letterOrDigit).value;
      && (TrimSpace(opt.sourceType) == "" ==> rec.sourceType == "default") && (TrimSpace(opt.lang) == "" ==> rec.lang == "und")
      && (opt.pageNo < 0 ==> rec.pageNo == 0) && (opt.offsetBase < 0 ==> rec.offset == 0)
      && rec.entityKeys == [] && rec.extraInfo == "" && rec.tsLegacy == 0
      && (TrimSpace(opt.chunkID) == "" ==> rec.chunkID == StableChunkID(TrimSpace(opt.docID), opt.pageNo, 0))
  {
    hide TrimSpace, Encode, Sanitized, StableChunkID;
  }

  /** Generated ids tell documents and pages apart, and nothing else does. */
  lemma PlainIdsDiffer(a: PlainOptions, b: PlainOptions, maxLen: nat, letterOrDigit: char -> bool)
    requires TrimSpace(a.chunkID) == TrimSpace(b.chunkID) == ""
    requires PlainID(a, maxLen, letterOrDigit).Ok? && PlainID(b, maxLen, letterOrDigit).Ok?
    ensures PlainID(a, maxLen, letterOrDigit) == PlainID(b, maxLen, letterOrDigit)
            <==> (TrimSpace(a.docID) == TrimSpace(b.docID) && a.pageNo == b.pageNo)
  {
    var p, q := Preimage(TrimSpace(a.docID), a.pageNo, 0), Preimage(TrimSpace(b.docID), b.pageNo, 0);
    if p == q {
      PreimageInjective(TrimSpace(a.docID), a.pageNo, 0, TrimSpace(b.docID), b.pageNo, 0);
    }
  }

  /** The request that a record could have come from. */
  function Request(rec: TextChunkLine, flush: bool): PlainOptions {
    PlainOptions(match rec.chunkID case Plain(s) => s case Sha256Hex(_) => "", rec.docID, rec.title, rec.url, rec.pageNo, rec.offset,
                 rec.sourceType, rec.lang, Options(rec.jobID, rec.taskID, flush))
  }

  lemma {:induction false} NoSpacesTrim(s: string)
    requires forall c :: c in s ==> !IsSpace(c)
    ensures TrimSpace(s) == s
  {
    hide IsSpace;
    if s != "" {
      assert s[0] in s && s[|s| - 1] in s;
      assert SkipSpaces(s, 0, |s|) == 0 && DropSpaces(s, 0, |s|) == |s|;
    }
  }

  lemma DefaultsAreTrimmed()
    ensures TrimSpace("default") == "default" && TrimSpace("und") == "und" && TrimSpace("") == ""
  {
  }

  /** An id that is given is cleaned once and for all, unless nothing is left of it. */
  lemma PlainIDTwice(opt: PlainOptions, maxLen: nat, letterOrDigit: char -> bool, rec: TextChunkLine, flush: bool)
    requires forall c :: letterOrDigit(c) ==> !IsSpace(c)
    requires PlainID(opt, maxLen, letterOrDigit) == Ok(rec.chunkID) && rec.docID == TrimSpace(opt.docID)
    requires rec.pageNo == if opt.pageNo < 0 then 0 else opt.pageNo
    ensures var given := TrimSpace(opt.chunkID);
      PlainID(Request(rec, flush), maxLen, letterOrDigit) == Ok(rec.chunkID)
      <==> if given == "" then opt.pageNo >= 0 else Sanitized(given, letterOrDigit) != ""
  {
    hide TrimSpace, Encode, Sanitized, Preimage, IsSpace;
    TrimTwice(opt.docID);
    DefaultsAreTrimmed();
    var given := TrimSpace(opt.chunkID);
    if given == "" {
      StableIdsDiffer(rec.docID, opt.pageNo, 0, rec.docID, rec.pageNo, 0);
    } else {
      var clean := Sanitized(given, letterOrDigit);
      CleanIDTrimmed(given, letterOrDigit);
      SanitizeTwice(given, letterOrDigit);
    }
  }

  lemma CleanIDTrimmed(s: string, letterOrDigit: char -> bool)
    requires forall c :: letterOrDigit(c) ==> !IsSpace(c)
    ensures TrimSpace(Sanitized(s, letterOrDigit)) == Sanitized(s, letterOrDigit)
  {
    SanitizedMeans(s, letterOrDigit);
    assert !IsSpace('_') && !IsSpace('-') && !IsSpace('.');
    NoSpacesTrim(Sanitized(s, letterOrDigit));
  }

  /**
   The record is a normal form: the request it could have come from gives the same record, if and only if the id was
   generated for a page that is not negative, or cleaning the given id left something.
   */
  lemma PlainRecordIsNormal(text: string, opt: PlainOptions, now: int, maxLen: nat, letterOrDigit: char -> bool, flush: bool)
    requires forall c :: letterOrDigit(c) ==> !IsSpace(c)
    requires PlainRecord(text, opt, now, maxLen, letterOrDigit).Ok?
    ensures var rec := PlainRecord(text, opt, now, maxLen, letterOrDigit).value;
      PlainRecord(rec.text, Request(rec, flush), now, maxLen, letterOrDigit) == Ok(rec)
      <==> if TrimSpace(opt.chunkID) == "" then opt.pageNo >= 0 else Sanitized(TrimSpace(opt.chunkID), letterOrDigit) != ""
  {
    hide TrimSpace, Encode, Sanitized, PlainID, IsSpace;
    var rec := PlainRecord(text, opt, now, maxLen, letterOrDigit).value;
    DefaultsAreTrimmed();
    TrimTwice(text);
    TrimTwice(opt.docID);
    TrimTwice(opt.title);
    TrimTwice(opt.url);
    TrimTwice(opt.sourceType);
    TrimTwice(opt.lang);
    TrimTwice(opt.run.jobID);
    TrimTwice(opt.run.taskID);
    PlainIDTwice(opt, maxLen, letterOrDigit, rec, flush);
  }

  /** Trimmed fields that say something, a clean id that is not too long, and no negative number. */
  ghost predicate CleanRequest(opt: PlainOptions, maxLen: nat, letterOrDigit: char -> bool) {
    && opt.chunkID != "" && TrimSpace(opt.chunkID) == opt.chunkID && |Encode(opt.chunkID)| <= maxLen
    && (forall c :: c in opt.chunkID ==> IsIdChar(c, letterOrDigit))
    && TrimSpace(opt.docID) == opt.docID && TrimSpace(opt.title) == opt.title && TrimSpace(opt.url) == opt.url
    && TrimSpace(opt.sourceType) == opt.sourceType != "" && TrimSpace(opt.lang) == opt.lang != ""
    && TrimSpace(opt.run.jobID) == opt.run.jobID && TrimSpace(opt.run.taskID) == opt.run.taskID
    && opt.pageNo >= 0 && opt.offsetBase >= 0
  }

  /** A clean request is kept as it is. */
  lemma CleanRequestIsKept(text: string, opt: PlainOptions, now: int, maxLen: nat, letterOrDigit: char -> bool)
    requires CleanRequest(opt, maxLen, letterOrDigit) && TrimSpace(text) == text != ""
    ensures var r := PlainRecord(text, opt, now, maxLen, letterOrDigit);
      && r.Ok? && Request(r.value, opt.run.flush) == opt
      && r.value.text == text && r.value.createdMs == r.value.updatedMs == now && r.value.chunkNo == 0
  {
    hide TrimSpace, Encode, Sanitized, IsIdChar;
    SanitizedMeans(opt.chunkID, letterOrDigit);
  }
}
