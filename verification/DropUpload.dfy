/** Drop's upload request: the multipart loop that stages files and its one call to the
    store. What the loop accepts is stated part by part, and proved to bound what
    the store is called with. */
module DropUpload {
  import opened Prelude
  import opened Text
  import opened DropState
  import opened DropRuns
  import opened DropStore

  /** In the microseconds of DropState. */
  const DAY: int := 86_400_000_000
  const MULTIPART_OVERHEAD: int64 := 0x200_0000

  datatype Config = Config(maxItemBytes: int64, maxAttachmentBytes: int64, maxAttachments: nat) {
    /** The sums that the loop forms stay within int64. */
    predicate Sane() {
      && 0 <= maxItemBytes && 0 <= maxAttachmentBytes
      && maxItemBytes as int + maxItemBytes as int < MAX_INT64
      && maxItemBytes as int + maxAttachmentBytes as int < MAX_INT64
      && maxItemBytes as int + MULTIPART_OVERHEAD as int <= MAX_INT64
    }
  }

  /** 1 GiB per item, 500 MiB per attachment, ten attachments. */
  const DEPLOYED := Config(0x4000_0000, 524_288_000, 10)

  /** One part of the body, with what stageAttachment would make of it: the name of its temporary file, the
      cleaned file name, the media type and the digest of its contents, and the calls that fail. */
  datatype Part =
    Part(formName: string, fileName: string, contents: Bytes, readFails: bool,
         temp: Id, createFails: bool, safeName: string, mediaType: string, digest: Bytes)

  datatype Request =
    Request(contentLength: int, isMultipart: bool, parts: seq<Part>, broken: bool, key: string, subject: string,
            actor: string)

  datatype Code =
    | ItemTooLarge | MultipartRequired | InvalidMultipart | InvalidText | InvalidTtl | TooManyAttachments
    | StorageUnavailable | UploadFailed | AttachmentTooLarge | UnexpectedField | EmptyItem | InvalidKey

  datatype Answer = Refused(code: Code) | Accepted(item: Item) | Failed(error: Error)

  // ---------------------------------------------------------------- the parts of a body

  datatype Kind = TextPart | TtlPart | FilePart | OtherPart

  function KindOf(p: Part): Kind {
    if p.formName == "text" && p.fileName == "" then TextPart
    else if p.formName == "ttl_days" && p.fileName == "" then TtlPart
    else if p.formName == "files" && p.fileName != "" then FilePart
    else OtherPart
  }

  function Init(parts: seq<Part>): seq<Part>
    requires parts != []
  { parts[..|parts| - 1] }

  function Last(parts: seq<Part>): Part
    requires parts != []
  { parts[|parts| - 1] }

  function Count(kind: Kind, parts: seq<Part>): nat
    decreases |parts|
  {
    if parts == [] then 0 else Count(kind, Init(parts)) + (if KindOf(Last(parts)) == kind then 1 else 0)
  }

  /** The text field's contents, if there is one. */
  function TextOf(parts: seq<Part>): Bytes
    decreases |parts|
  {
    if parts == [] then [] else if KindOf(Last(parts)) == TextPart then Last(parts).contents else TextOf(Init(parts))
  }

  function AsString(s: Bytes): string { seq(|s|, i requires 0 <= i < |s| => s[i] as char) }

  /** The number of days in a ttl_days field, of which sixteen bytes are read. */
  function DaysIn(p: Part): Option<int> {
    Atoi(AsString(TrimBytes(if |p.contents| <= 16 then p.contents else p.contents[..16])))
  }

  function DaysOf(parts: seq<Part>): int
    decreases |parts|
  {
    if parts == [] then 1
    else if KindOf(Last(parts)) == TtlPart && DaysIn(Last(parts)).Some? then DaysIn(Last(parts)).value
    else DaysOf(Init(parts))
  }

  predicate Sized(parts: seq<Part>) { forall i :: 0 <= i < |parts| ==> |parts[i].contents| < MAX_INT64 }

  /** The file parts, as the store is told about them. */
  function FilesOf(parts: seq<Part>): (r: seq<Pending>)
    requires Sized(parts)
    ensures |r| == Count(FilePart, parts)
    decreases |parts|
  {
    if parts == [] then []
    else if KindOf(Last(parts)) == FilePart then FilesOf(Init(parts)) + [PendingFor(Last(parts))]
    else FilesOf(Init(parts))
  }

  function PendingFor(p: Part): Pending
    requires |p.contents| <= MAX_INT64
  { Pending(Some(p.temp), p.safeName, p.mediaType, |p.contents| as int64, p.digest) }

  /** Text and file bytes together. */
  function Total(parts: seq<Part>): nat
    decreases |parts|
  {
    if parts == [] then 0
    else Total(Init(parts)) + (if KindOf(Last(parts)) in {TextPart, FilePart} then |Last(parts).contents| else 0)
  }

  function UploadsOf(parts: seq<Part>): Files
    decreases |parts|
  {
    if parts == [] then map[]
    else if KindOf(Last(parts)) == FilePart then
      UploadsOf(Init(parts))[Upload(Last(parts).temp) := Last(parts).contents]
    else UploadsOf(Init(parts))
  }

  function TempsIn(parts: seq<Part>): set<Id>
    decreases |parts|
  {
    if parts == [] then {}
    else if KindOf(Last(parts)) == FilePart then TempsIn(Init(parts)) + {Last(parts).temp}
    else TempsIn(Init(parts))
  }

  function UploadPaths(names: set<Id>): set<Path> { set n | n in names :: Upload(n) }

  // ---------------------------------------------------------------- what the loop accepts

  /** The check that ends each turn of the loop. */
  function Excess(c: Config, parts: seq<Part>, i: nat): Option<Code>
    requires i < |parts|
  { if Total(parts[..i + 1]) > c.maxItemBytes as int then Some(ItemTooLarge) else None }

  /** Why stageAttachment fails, if it does. */
  function FileFailure(c: Config, p: Part): Option<Code> {
    if p.createFails then Some(StorageUnavailable)
    else if p.readFails then Some(UploadFailed)
    else if |p.contents| > c.maxAttachmentBytes as int then Some(AttachmentTooLarge)
    else None
  }

  /** Why the loop refuses its i-th part, given that it accepted the earlier ones. */
  function Refusal(c: Config, parts: seq<Part>, i: nat): Option<Code>
    requires i < |parts|
  {
    var p, earlier, after := parts[i], parts[..i], Excess(c, parts, i);
    match KindOf(p)
    case TextPart =>
      if Count(TextPart, earlier) > 0 then Some(UnexpectedField)
      else if p.readFails || |p.contents| > c.maxItemBytes as int || !ValidUtf8(p.contents) then Some(InvalidText)
      else after
    case TtlPart =>
      if Count(TtlPart, earlier) > 0 then Some(UnexpectedField) else if DaysIn(p).None? then Some(InvalidTtl) else after
    case FilePart =>
      if Count(FilePart, earlier) >= c.maxAttachments then Some(TooManyAttachments)
      else if FileFailure(c, p).Some? then FileFailure(c, p)
      else after
    case OtherPart => Some(UnexpectedField)
  }

  predicate Taken(c: Config, parts: seq<Part>) {
    forall i :: 0 <= i < |parts| ==> Refusal(c, parts, i).None?
  }

  /** The first part from i on that the loop refuses. */
  function RefusedFrom(c: Config, parts: seq<Part>, i: nat): (k: nat)
    requires i <= |parts|
    ensures i <= k <= |parts|
    ensures forall j :: i <= j < k ==> Refusal(c, parts, j).None?
    ensures k < |parts| ==> Refusal(c, parts, k).Some?
    decreases |parts| - i
  {
    if i == |parts| || Refusal(c, parts, i).Some? then i else RefusedFrom(c, parts, i + 1)
  }

  /** Why the loop ends without a result, if it does. */
  function Verdict(c: Config, parts: seq<Part>, broken: bool): Option<Code> {
    var k := RefusedFrom(c, parts, 0);
    if k < |parts| then Refusal(c, parts, k) else if broken then Some(InvalidMultipart) else None
  }

  /** What sanitizeFilename, the hash and CreateTemp guarantee of a part. */
  ghost predicate WellFormed(parts: seq<Part>, minted: set<Id>) {
    && Sized(parts)
    && (forall i :: 0 <= i < |parts| ==> parts[i].safeName != "" && |parts[i].digest| == 32)
    && (forall i :: 0 <= i < |parts| ==> parts[i].temp !in minted)
    && (forall i, j :: 0 <= i < j < |parts| ==> parts[i].temp != parts[j].temp)
  }

  /** The hash's preimage: the actor, a NUL, and the key. */
  function Preimage(actor: string, key: string): string { actor + [0 as char] + key }

  /** The key field, or None for a key of the wrong length, which is counted in bytes. */
  function KeyOf(request: Request): Option<KeyField> {
    var key := TrimSpace(request.key);
    if key == "" then Some(NoKey)
    else if |Encode(key)| < 16 || |Encode(key)| > 200 then None
    else Some(Key(KeyHash(Preimage(request.actor, key))))
  }

  function InputFor(request: Request): CreateInput
    requires Sized(request.parts)
    requires KeyOf(request).Some?
  {
    CreateInput(TextOf(request.parts), request.subject, request.actor, DaysOf(request.parts) * DAY,
                KeyOf(request).value,
                FilesOf(request.parts))
  }

  /** The checks after the loop. */
  function Late(request: Request): Option<Code> {
    if TextOf(request.parts) == [] && Count(FilePart, request.parts) == 0 then Some(EmptyItem)
    else if DaysOf(request.parts) !in {1, 3, 7} then Some(InvalidTtl)
    else if KeyOf(request).None? then Some(InvalidKey)
    else None
  }

  /** The answer given before the store is called, if any. */
  function EarlyAnswer(c: Config, request: Request): (r: Option<Code>)
    ensures r.None? ==> Taken(c, request.parts) && KeyOf(request).Some? && DaysOf(request.parts) in {1, 3, 7}
  {
    if request.contentLength > c.maxItemBytes as int + MULTIPART_OVERHEAD as int then Some(ItemTooLarge)
    else if !request.isMultipart then Some(MultipartRequired)
    else if Verdict(c, request.parts, request.broken).Some? then Verdict(c, request.parts, request.broken)
    else Late(request)
  }

  // ---------------------------------------------------------------- the request as a whole

  /** State s after the uploads of these parts have been staged. */
  ghost function StagedState(s: State, parts: seq<Part>): State {
    s.(files := s.files + UploadsOf(parts), minted := s.minted + TempsIn(parts))
  }

  /** CreateItem on state s: an early answer changes nothing; otherwise the uploads are staged, Create
      is called once, and what it has not moved is removed. */
  ghost function UploadSpec(s: State, c: Config, request: Request, now: Instant, draw: Draw, fault: Fault)
    : (State, Answer)
    requires WellFormed(request.parts, s.minted)
    requires |draw.attachments| == |draw.blobs| == Count(FilePart, request.parts)
  {
    var early := EarlyAnswer(c, request);
    if early.Some? then (s, Refused(early.value))
    else
      var staged := StagedState(s, request.parts);
      var (u, r) := CreateSpec(staged, InputFor(request), now, draw, fault);
      (u.(files := u.files - UploadPaths(TempsIn(request.parts))), if r.Ok? then Accepted(r.value) else Failed(r.error))
  }

  /** Equal but for identifiers drawn in vain. */
  ghost predicate SameButDrawn(s: State, u: State) { u == s.(minted := u.minted) && s.minted <= u.minted }

  // ---------------------------------------------------------------- facts about prefixes

  lemma Snoc(parts: seq<Part>, i: nat)
    requires i < |parts|
    ensures parts[..i + 1] != [] && Init(parts[..i + 1]) == parts[..i] && Last(parts[..i + 1]) == parts[i]
  {
  }

  /** The loop's variables after it has accepted the first i parts. */
  datatype Progress = Progress(text: Bytes, ttlDays: int, seenText: bool, seenTtl: bool, pending: seq<Pending>,
                               total: nat)

  ghost predicate Summary(c: Config, parts: seq<Part>, i: nat, v: Progress) {
    && c.Sane() && i <= |parts| && Sized(parts) && RefusedFrom(c, parts, 0) == RefusedFrom(c, parts, i)
    && v.text == TextOf(parts[..i]) && v.ttlDays == DaysOf(parts[..i])
    && v.seenText == (Count(TextPart, parts[..i]) > 0) && v.seenTtl == (Count(TtlPart, parts[..i]) > 0)
    && v.pending == FilesOf(parts[..i]) && v.total == Total(parts[..i]) <= c.maxItemBytes as int
  }

  /** A part refused ends the loop with its code. */
  lemma PartRefused(c: Config, parts: seq<Part>, broken: bool, i: nat, v: Progress)
    requires Summary(c, parts, i, v) && i < |parts|
    ensures var p := parts[i];
            && (KindOf(p) == TextPart && !v.seenText ==>
                  (p.readFails || |p.contents| > c.maxItemBytes as int || !ValidUtf8(p.contents) ==>
                     Verdict(c, parts, broken) == Some(InvalidText)))
            && (KindOf(p) == TtlPart && !v.seenTtl && DaysIn(p).None? ==> Verdict(c, parts, broken) == Some(InvalidTtl))
            && (KindOf(p) == FilePart && |v.pending| >= c.maxAttachments ==>
                  Verdict(c, parts, broken) == Some(TooManyAttachments))
            && (KindOf(p) == FilePart && |v.pending| < c.maxAttachments && FileFailure(c, p).Some? ==>
                  Verdict(c, parts, broken) == FileFailure(c, p))
            && (KindOf(p) == OtherPart ==> Verdict(c, parts, broken) == Some(UnexpectedField))
            && (KindOf(p) == TextPart && v.seenText ==> Verdict(c, parts, broken) == Some(UnexpectedField))
            && (KindOf(p) == TtlPart && v.seenTtl ==> Verdict(c, parts, broken) == Some(UnexpectedField))
  {
    hide TextOf, DaysOf, Total, ValidUtf8, DaysIn;
  }

  /** The loop's variables after one more part, of the kind that it expects. */
  ghost function Take(p: Part, v: Progress): Progress
    requires |p.contents| < MAX_INT64 && (KindOf(p) == TtlPart ==> DaysIn(p).Some?)
  {
    match KindOf(p)
    case TextPart => v.(text := p.contents, seenText := true, total := v.total + |p.contents|)
    case TtlPart => v.(ttlDays := DaysIn(p).value, seenTtl := true)
    case FilePart => v.(pending := v.pending + [PendingFor(p)], total := v.total + |p.contents|)
    case OtherPart => v
  }

  /** What the loop checks before it counts a part of each kind. */
  predicate Passes(c: Config, p: Part, v: Progress) {
    match KindOf(p)
    case TextPart => !v.seenText && !p.readFails && |p.contents| <= c.maxItemBytes as int && ValidUtf8(p.contents)
    case TtlPart => !v.seenTtl && DaysIn(p).Some?
    case FilePart => |v.pending| < c.maxAttachments && FileFailure(c, p).None?
    case OtherPart => false
  }

  /** One more part that passes: the total stays within int64 and decides whether the loop goes on. */
  lemma PartTaken(c: Config, parts: seq<Part>, broken: bool, i: nat, v: Progress)
    requires Summary(c, parts, i, v) && i < |parts| && Passes(c, parts[i], v)
    ensures |parts[i].contents| < MAX_INT64
    ensures var w := Take(parts[i], v);
            && w.pending == FilesOf(parts[..i + 1]) && w.total <= MAX_INT64
            && if w.total > c.maxItemBytes as int then Verdict(c, parts, broken) == Some(ItemTooLarge)
               else Summary(c, parts, i + 1, w)
  {
    hide ValidUtf8, DaysIn;
    Snoc(parts, i);
  }

  lemma TextTaken(c: Config, parts: seq<Part>, broken: bool, i: nat, v: Progress)
    requires Summary(c, parts, i, v) && i < |parts| && KindOf(parts[i]) == TextPart && !v.seenText
    requires !parts[i].readFails && |parts[i].contents| <= c.maxItemBytes as int && ValidUtf8(parts[i].contents)
    ensures |parts[i].contents| < 0x7FFF_FFFF_FFFF_FFFF
    ensures var total := v.total + |parts[i].contents|;
            && v.pending == FilesOf(parts[..i + 1]) && total <= 0x7FFF_FFFF_FFFF_FFFF
            && if total > c.maxItemBytes as int then Verdict(c, parts, broken) == Some(ItemTooLarge)
               else Summary(c, parts, i + 1, Progress(parts[i].contents, v.ttlDays, true, v.seenTtl, v.pending, total))
  {
    hide Summary, Verdict, FilesOf, ValidUtf8;
    PartTaken(c, parts, broken, i, v);
  }

  lemma TtlTaken(c: Config, parts: seq<Part>, broken: bool, i: nat, v: Progress)
    requires Summary(c, parts, i, v) && i < |parts| && KindOf(parts[i]) == TtlPart && !v.seenTtl
    requires DaysIn(parts[i]).Some?
    ensures v.pending == FilesOf(parts[..i + 1])
    ensures if v.total > c.maxItemBytes as int then Verdict(c, parts, broken) == Some(ItemTooLarge)
            else Summary(c, parts, i + 1,
                         Progress(v.text, DaysIn(parts[i]).value, v.seenText, true, v.pending, v.total))
  {
    hide Summary, Verdict, FilesOf, DaysIn;
    PartTaken(c, parts, broken, i, v);
  }

  lemma FileTaken(c: Config, parts: seq<Part>, broken: bool, i: nat, v: Progress)
    requires Summary(c, parts, i, v) && i < |parts| && KindOf(parts[i]) == FilePart
    requires |v.pending| < c.maxAttachments && FileFailure(c, parts[i]).None?
    ensures |parts[i].contents| < 0x7FFF_FFFF_FFFF_FFFF && PendingFor(parts[i]).size as int == |parts[i].contents|
    ensures var total, pending := v.total + |parts[i].contents|, v.pending + [PendingFor(parts[i])];
            && pending == FilesOf(parts[..i + 1]) && total <= 0x7FFF_FFFF_FFFF_FFFF
            && if total > c.maxItemBytes as int then Verdict(c, parts, broken) == Some(ItemTooLarge)
               else Summary(c, parts, i + 1, Progress(v.text, v.ttlDays, v.seenText, v.seenTtl, pending, total))
  {
    hide Summary, Verdict, FilesOf;
    PartTaken(c, parts, broken, i, v);
  }

  /** What has been staged is exactly what the store would be told, and what removal takes away. */
  lemma {:induction false} StagedPaths(parts: seq<Part>)
    requires Sized(parts)
    ensures AllStaged(FilesOf(parts))
    ensures Temps(FilesOf(parts)) == UploadPaths(TempsIn(parts)) == UploadsOf(parts).Keys
    ensures forall n :: n in TempsIn(parts) ==> exists i :: 0 <= i < |parts| && parts[i].temp == n
    decreases |parts|
  {
    if parts != [] {
      var (before, p) := (Init(parts), Last(parts));
      StagedPaths(before);
      forall n | n in TempsIn(parts) ensures exists i :: 0 <= i < |parts| && parts[i].temp == n {
        if n in TempsIn(before) {
          var i :| 0 <= i < |before| && before[i].temp == n;
          assert parts[i].temp == n;
        } else {
          assert parts[|parts| - 1].temp == n;
        }
      }
      if KindOf(p) == FilePart {
        var files := FilesOf(before);
        forall q ensures q in Temps(files + [PendingFor(p)]) <==> q in Temps(files) || q == Upload(p.temp) {
          if q in Temps(files) {
            var i :| 0 <= i < |files| && TempOf(files[i]) == q;
            assert (files + [PendingFor(p)])[i] == files[i];
          }
          assert (files + [PendingFor(p)])[|files|] == PendingFor(p);
        }
      }
    }
  }

  /** Each staged file has the bytes of its part, of the size and with the name and digest that the store is told. */
  lemma {:induction false} StagedBytes(parts: seq<Part>, k: nat) returns (i: nat)
    requires Sized(parts)
    requires forall i, j :: 0 <= i < j < |parts| ==> parts[i].temp != parts[j].temp
    requires k < |FilesOf(parts)|
    ensures i < |parts| && KindOf(parts[i]) == FilePart && FilesOf(parts)[k] == PendingFor(parts[i])
    ensures Upload(parts[i].temp) in UploadsOf(parts) && UploadsOf(parts)[Upload(parts[i].temp)] == parts[i].contents
    decreases |parts|
  {
    if k < |FilesOf(Init(parts))| {
      i := StagedBytes(Init(parts), k);
      assert parts[i].temp != Last(parts).temp;
    } else {
      i := |parts| - 1;
    }
  }

  lemma {:induction false} TotalIsSize(parts: seq<Part>)
    requires Sized(parts)
    requires Count(TextPart, parts) <= 1
    ensures Total(parts) == |TextOf(parts)| + Sizes(FilesOf(parts))
    ensures Count(TextPart, parts) == 0 ==> TextOf(parts) == []
    decreases |parts|
  {
    if parts != [] {
      TotalIsSize(Init(parts));
      if KindOf(Last(parts)) == FilePart {
        SizesSnoc(FilesOf(Init(parts)), PendingFor(Last(parts)));
      }
    }
  }

  /** After the loop has accepted the first i parts. */
  lemma {:induction false} TakenBounds(c: Config, parts: seq<Part>, i: nat)
    requires c.Sane() && i <= |parts| && forall j :: 0 <= j < i ==> Refusal(c, parts, j).None?
    ensures Count(TextPart, parts[..i]) <= 1 && Count(TtlPart, parts[..i]) <= 1
    ensures Count(FilePart, parts[..i]) <= c.maxAttachments && Total(parts[..i]) <= c.maxItemBytes as int
    ensures |TextOf(parts[..i])| <= c.maxItemBytes as int
    ensures forall j :: 0 <= j < i && KindOf(parts[j]) == FilePart ==>
              |parts[j].contents| <= c.maxAttachmentBytes as int
  {
    if i > 0 {
      TakenBounds(c, parts, i - 1);
      Snoc(parts, i - 1);
      assert Refusal(c, parts, i - 1).None?;
    }
  }

  /** The running total never exceeds the item limit by more than one part. */
  lemma RunningTotal(c: Config, parts: seq<Part>, i: nat)
    requires c.Sane() && i < |parts| && forall j :: 0 <= j < i ==> Refusal(c, parts, j).None?
    requires Refusal(c, parts, i) in {None, Some(ItemTooLarge)}
    ensures Total(parts[..i + 1])
         <= c.maxItemBytes as int
            + (if c.maxItemBytes < c.maxAttachmentBytes then c.maxAttachmentBytes else c.maxItemBytes) as int
  {
    TakenBounds(c, parts, i);
    Snoc(parts, i);
  }

  /** What the store is called with: within every limit, well formed, and as large as the loop has counted. */
  lemma StoreCallBounded(c: Config, request: Request, minted: set<Id>)
    requires c.Sane() && WellFormed(request.parts, minted) && EarlyAnswer(c, request).None?
    ensures var input := InputFor(request);
            && |input.text| + Sizes(input.attachments) == Total(request.parts) <= c.maxItemBytes as int
            && |input.text| <= c.maxItemBytes as int
            && |input.attachments| <= c.maxAttachments
            && (forall k :: 0 <= k < |input.attachments| ==>
                  !BadPending(input.attachments[k]) && 0 <= input.attachments[k].size <= c.maxAttachmentBytes)
            && Count(TextPart, request.parts) <= 1 && Count(TtlPart, request.parts) <= 1
            && input.ttl in {DAY, 3 * DAY, 7 * DAY}
            && (request.subject != "" && request.actor != "" ==> !BadInput(input))
  {
    var parts := request.parts;
    assert parts[..|parts|] == parts;
    TakenBounds(c, parts, |parts|);
    TotalIsSize(parts);
    forall k | 0 <= k < |FilesOf(parts)|
      ensures !BadPending(FilesOf(parts)[k]) && 0 <= FilesOf(parts)[k].size <= c.maxAttachmentBytes
    {
      var i := StagedBytes(parts, k);
    }
  }

  // ---------------------------------------------------------------- what a form says

  predicate IsText(p: Part) { p.formName == "text" && p.fileName == "" }

  predicate IsTtl(p: Part) { p.formName == "ttl_days" && p.fileName == "" }

  predicate IsFile(p: Part) { p.formName == "files" && p.fileName != "" }

  /** The number that the first sixteen bytes of a field say. */
  function NumberIn(contents: Bytes): Option<int> {
    Atoi(AsString(TrimBytes(contents[..if |contents| < 16 then |contents| else 16])))
  }

  lemma {:induction false} CountsMean(parts: seq<Part>)
    ensures Count(TextPart, parts) == 0 <==> forall i :: 0 <= i < |parts| ==> !IsText(parts[i])
    ensures Count(TtlPart, parts) == 0 <==> forall i :: 0 <= i < |parts| ==> !IsTtl(parts[i])
    ensures Count(TextPart, parts) <= 1 <==>
            forall i, j :: 0 <= i < j < |parts| ==> !(IsText(parts[i]) && IsText(parts[j]))
    ensures Count(TtlPart, parts) <= 1 <==>
            forall i, j :: 0 <= i < j < |parts| ==> !(IsTtl(parts[i]) && IsTtl(parts[j]))
    decreases |parts|
  {
    if parts != [] {
      var before := Init(parts);
      CountsMean(before);
      assert forall i :: 0 <= i < |before| ==> before[i] == parts[i];
    }
  }

  lemma {:induction false} PrefixesGrow(parts: seq<Part>, i: nat)
    requires i <= |parts|
    ensures Count(FilePart, parts[..i]) <= Count(FilePart, parts) && Total(parts[..i]) <= Total(parts)
    decreases |parts|
  {
    if i == |parts| {
      assert parts[..i] == parts;
    } else {
      PrefixesGrow(Init(parts), i);
      assert Init(parts)[..i] == parts[..i];
    }
  }

  /** A part that the loop takes by itself. */
  predicate Fine(c: Config, p: Part) {
    || (IsText(p) && !p.readFails && |p.contents| <= c.maxItemBytes as int && ValidUtf8(p.contents))
    || (IsTtl(p) && NumberIn(p.contents).Some?)
    || (IsFile(p) && !p.createFails && !p.readFails && |p.contents| <= c.maxAttachmentBytes as int)
  }

  lemma FineMeans(c: Config, parts: seq<Part>, i: nat)
    requires c.Sane() && i < |parts|
    ensures Refusal(c, parts, i).None? <==>
            && Fine(c, parts[i])
            && (IsText(parts[i]) ==> Count(TextPart, parts[..i]) == 0)
            && (IsTtl(parts[i]) ==> Count(TtlPart, parts[..i]) == 0)
            && (IsFile(parts[i]) ==> Count(FilePart, parts[..i]) < c.maxAttachments)
            && Total(parts[..i + 1]) <= c.maxItemBytes as int
  {
    hide ValidUtf8, Atoi, TrimBytes, Total, Count;
    var p := parts[i];
    assert "text" != "files" && "text" != "ttl_days" && "files" != "ttl_days" by {
      assert "text"[0] == 't' && "files"[0] == 'f' && "ttl_days"[0] == 't' && "text"[1] == 'e' && "ttl_days"[1] == 't';
    }
    assert |p.contents| <= 16 ==> p.contents[..|p.contents|] == p.contents;
  }

  /** The loop takes a form exactly if each of its parts is fine, there is at most one text, one TTL and the allowed
      number of files, and everything together is within the limit. */
  lemma TakenExactlyWhen(c: Config, parts: seq<Part>)
    requires c.Sane()
    ensures Taken(c, parts) <==>
            && (forall i :: 0 <= i < |parts| ==> Fine(c, parts[i]))
            && (forall i, j :: 0 <= i < j < |parts| ==> !(IsText(parts[i]) && IsText(parts[j])))
            && (forall i, j :: 0 <= i < j < |parts| ==> !(IsTtl(parts[i]) && IsTtl(parts[j])))
            && Count(FilePart, parts) <= c.maxAttachments && Total(parts) <= c.maxItemBytes as int
  {
    hide Refusal, Fine, IsText, IsTtl, IsFile, Count, Total;
    CountsMean(parts);
    forall i | 0 <= i < |parts|
      ensures Refusal(c, parts, i).None? ==> Fine(c, parts[i])
    {
      FineMeans(c, parts, i);
    }
    if Taken(c, parts) {
      TakenBounds(c, parts, |parts|);
      assert parts[..|parts|] == parts;
    }
    if (forall i :: 0 <= i < |parts| ==> Fine(c, parts[i]))
       && (forall i, j :: 0 <= i < j < |parts| ==> !(IsText(parts[i]) && IsText(parts[j])))
       && (forall i, j :: 0 <= i < j < |parts| ==> !(IsTtl(parts[i]) && IsTtl(parts[j])))
       && Count(FilePart, parts) <= c.maxAttachments && Total(parts) <= c.maxItemBytes as int
    {
      forall i | 0 <= i < |parts| ensures Refusal(c, parts, i).None? { PartGoesThrough(c, parts, i); }
    }
  }

  /** The same for the deployed limits: ten files of up to 500 MiB, and 1 GiB in all. */
  lemma DeployedTakes(parts: seq<Part>)
    ensures Taken(DEPLOYED, parts) <==>
            && (forall i :: 0 <= i < |parts| ==>
                  var p := parts[i];
                  || (IsText(p) && !p.readFails && |p.contents| <= 1_073_741_824 && ValidUtf8(p.contents))
                  || (IsTtl(p) && NumberIn(p.contents).Some?)
                  || (IsFile(p) && !p.createFails && !p.readFails && |p.contents| <= 524_288_000))
            && (forall i, j :: 0 <= i < j < |parts| ==> !(IsText(parts[i]) && IsText(parts[j])))
            && (forall i, j :: 0 <= i < j < |parts| ==> !(IsTtl(parts[i]) && IsTtl(parts[j])))
            && Count(FilePart, parts) <= 10 && Total(parts) <= 1_073_741_824
  {
    hide Taken, IsText, IsTtl, IsFile, NumberIn, ValidUtf8, Count, Total;
    TakenExactlyWhen(DEPLOYED, parts);
    assert forall i :: 0 <= i < |parts| ==>
        (Fine(DEPLOYED, parts[i]) <==>
           || (IsText(parts[i]) && !parts[i].readFails && |parts[i].contents| <= 1_073_741_824
               && ValidUtf8(parts[i].contents))
           || (IsTtl(parts[i]) && NumberIn(parts[i].contents).Some?)
           || (IsFile(parts[i]) && !parts[i].createFails && !parts[i].readFails
               && |parts[i].contents| <= 524_288_000));
  }

  lemma PartGoesThrough(c: Config, parts: seq<Part>, i: nat)
    requires c.Sane() && i < |parts| && Fine(c, parts[i])
    requires forall k :: 0 <= k < i ==> !(IsText(parts[k]) && IsText(parts[i])) && !(IsTtl(parts[k]) && IsTtl(parts[i]))
    requires Count(FilePart, parts) <= c.maxAttachments && Total(parts) <= c.maxItemBytes as int
    ensures Refusal(c, parts, i).None?
  {
    hide Refusal, Fine;
    FineMeans(c, parts, i);
    CountsMean(parts[..i]);
    PrefixesGrow(parts, i + 1);
    Snoc(parts, i);
  }

  /** What the store is told about the files: one attachment for each file part, in order, with its own fields. */
  lemma {:induction false} FilesAre(parts: seq<Part>) returns (at: seq<nat>)
    requires Sized(parts)
    ensures |at| == |FilesOf(parts)| == Count(FilePart, parts)
    ensures forall j, k :: 0 <= j < k < |at| ==> at[j] < at[k]
    ensures forall i: nat :: i in at <==> i < |parts| && parts[i].formName == "files" && parts[i].fileName != ""
    ensures forall k :: 0 <= k < |at| ==>
              at[k] < |parts| &&
              var p := parts[at[k]];
              FilesOf(parts)[k] == Pending(Some(p.temp), p.safeName, p.mediaType, |p.contents| as int64, p.digest)
    decreases |parts|
  {
    hide KindOf;
    at := [];
    if parts != [] {
      var n := |parts| - 1;
      at := FilesAre(Init(parts));
      FileKind(Last(parts));
      assert forall i :: 0 <= i < n ==> Init(parts)[i] == parts[i];
      forall k | 0 <= k < |at| ensures at[k] < n { assert at[k] in at; }
      if KindOf(Last(parts)) == FilePart { at := at + [n]; }
    }
  }

  lemma FileKind(p: Part)
    ensures KindOf(p) == FilePart <==> p.formName == "files" && p.fileName != ""
  {
    assert "text"[0] == 't' && "files"[0] == 'f' && "ttl_days"[0] == 't';
  }

  /** What the form says: the text is that of the text part, and the days are those of the TTL part, or one. */
  lemma {:induction false} FormReads(parts: seq<Part>)
    requires Count(TextPart, parts) <= 1 && Count(TtlPart, parts) <= 1
    requires forall i :: 0 <= i < |parts| && IsTtl(parts[i]) ==> NumberIn(parts[i].contents).Some?
    ensures forall i :: 0 <= i < |parts| && IsText(parts[i]) ==> TextOf(parts) == parts[i].contents
    ensures (forall i :: 0 <= i < |parts| ==> !IsText(parts[i])) ==> TextOf(parts) == []
    ensures forall i :: 0 <= i < |parts| && IsTtl(parts[i]) ==> Some(DaysOf(parts)) == NumberIn(parts[i].contents)
    ensures (forall i :: 0 <= i < |parts| ==> !IsTtl(parts[i])) ==> DaysOf(parts) == 1
    decreases |parts|
  {
    hide Atoi, TrimBytes;
    if parts != [] {
      var (before, p) := (Init(parts), Last(parts));
      assert forall i :: 0 <= i < |before| ==> before[i] == parts[i];
      CountsMean(parts);
      FormReads(before);
      assert |p.contents| <= 16 ==> p.contents[..|p.contents|] == p.contents;
      DaysAreNumber(p);
    }
  }

  lemma DaysAreNumber(p: Part)
    ensures DaysIn(p) == NumberIn(p.contents)
  {
    hide Atoi, TrimBytes;
    assert |p.contents| <= 16 ==> p.contents[..|p.contents|] == p.contents;
  }

  /** The store is called exactly for a request that is not too long, is a whole form that the loop takes, has a text or
      a file, a TTL of 1, 3 or 7 days if it has one, and no key or one of 16 to 200 bytes. */
  lemma CalledExactlyWhen(c: Config, request: Request)
    requires c.Sane()
    ensures EarlyAnswer(c, request).None? <==>
            && request.contentLength <= c.maxItemBytes as int + 0x200_0000 && request.isMultipart && !request.broken
            && Taken(c, request.parts)
            && (exists i :: 0 <= i < |request.parts|
                            && (IsFile(request.parts[i])
                                || (IsText(request.parts[i]) && request.parts[i].contents != [])))
            && (forall i :: 0 <= i < |request.parts| && IsTtl(request.parts[i]) ==>
                  NumberIn(request.parts[i].contents) in {Some(1), Some(3), Some(7)})
            && (TrimSpace(request.key) == "" || 16 <= |Encode(TrimSpace(request.key))| <= 200)
  {
    hide Refusal, IsText, IsTtl, NumberIn, Taken, TrimSpace, Encode, Count, TextOf, DaysOf;
    var parts := request.parts;
    VerdictMeans(c, parts, request.broken);
    if Taken(c, parts) {
      TakenReads(c, parts);
      FilesCounted(parts);
    }
  }

  lemma VerdictMeans(c: Config, parts: seq<Part>, broken: bool)
    ensures Verdict(c, parts, broken).None? <==> Taken(c, parts) && !broken
  {
    hide Refusal;
  }

  lemma TakenReads(c: Config, parts: seq<Part>)
    requires c.Sane() && Taken(c, parts)
    ensures forall i :: 0 <= i < |parts| && IsText(parts[i]) ==> TextOf(parts) == parts[i].contents
    ensures (forall i :: 0 <= i < |parts| ==> !IsText(parts[i])) ==> TextOf(parts) == []
    ensures forall i :: 0 <= i < |parts| && IsTtl(parts[i]) ==> NumberIn(parts[i].contents) == Some(DaysOf(parts))
    ensures (forall i :: 0 <= i < |parts| ==> !IsTtl(parts[i])) ==> DaysOf(parts) == 1
  {
    hide Taken, NumberIn, TextOf, DaysOf, IsText, IsTtl, Count, Total, Fine;
    TakenExactlyWhen(c, parts);
    CountsMean(parts);
    forall i | 0 <= i < |parts| && IsTtl(parts[i]) ensures NumberIn(parts[i].contents).Some? {
      FineTtl(c, parts[i]);
    }
    FormReads(parts);
  }

  lemma FineTtl(c: Config, p: Part)
    requires Fine(c, p) && IsTtl(p)
    ensures NumberIn(p.contents).Some?
  {
    hide NumberIn, ValidUtf8;
    assert "ttl_days"[1] == 't' && "text"[1] == 'e' && "files"[0] == 'f' && "ttl_days"[0] == 't';
  }

  lemma {:induction false} FilesCounted(parts: seq<Part>)
    ensures Count(FilePart, parts) == 0 <==> forall i :: 0 <= i < |parts| ==> !IsFile(parts[i])
    decreases |parts|
  {
    if parts != [] {
      FilesCounted(Init(parts));
      FileKind(Last(parts));
      assert forall i :: 0 <= i < |Init(parts)| ==> Init(parts)[i] == parts[i];
    }
  }

  /** What the store is called with, field by field. */
  lemma StoreIsTold(c: Config, request: Request)
    requires c.Sane() && Sized(request.parts) && EarlyAnswer(c, request).None?
    ensures var input, parts := InputFor(request), request.parts;
            && input.creator == request.subject && input.actor == request.actor
            && (forall i :: 0 <= i < |parts| && IsText(parts[i]) ==> input.text == parts[i].contents)
            && ((forall i :: 0 <= i < |parts| ==> !IsText(parts[i])) ==> input.text == [])
            && (forall i :: 0 <= i < |parts| && IsTtl(parts[i]) ==>
                  NumberIn(parts[i].contents).Some? && input.ttl == NumberIn(parts[i].contents).value * 86_400_000_000)
            && ((forall i :: 0 <= i < |parts| ==> !IsTtl(parts[i])) ==> input.ttl == 86_400_000_000)
            && input.key == (if TrimSpace(request.key) == "" then NoKey
                             else Key(KeyHash(request.actor + [0 as char] + TrimSpace(request.key))))
  {
    hide Taken, IsText, IsTtl, NumberIn, TextOf, DaysOf, FilesOf, TrimSpace, Encode;
    TakenReads(c, request.parts);
  }

  lemma StagedSizesMatch(parts: seq<Part>, files: Files)
    requires Sized(parts)
    requires forall i, j :: 0 <= i < j < |parts| ==> parts[i].temp != parts[j].temp
    ensures SizesMatch(files + UploadsOf(parts), FilesOf(parts))
  {
    var pending := FilesOf(parts);
    forall k | 0 <= k < |pending|
      ensures pending[k].tempPath.Some? && Upload(pending[k].tempPath.value) in UploadsOf(parts)
           && |UploadsOf(parts)[Upload(pending[k].tempPath.value)]| == pending[k].size as int
    {
      var i := StagedBytes(parts, k);
    }
  }

  lemma StoringKeepsOtherUploads(s: State, input: CreateInput, draw: Draw, fault: Fault, total: int, n: Id)
    requires |draw.attachments| == |draw.blobs| == |input.attachments| && AllStaged(input.attachments)
    ensures var u := StoreSpec(s, input, draw, fault, total).0;
            && (Upload(n) in u.files ==> Upload(n) in s.files && u.files[Upload(n)] == s.files[Upload(n)])
            && (Upload(n) in s.files && Upload(n) !in Temps(input.attachments) ==> Upload(n) in u.files)
  {
    hide Inserted, CreatedItem, BlobContents;
    var m := Movable(s.files, input.attachments, fault, 0);
    if m == |input.attachments| {
      MovableAll(s.files, input.attachments, fault, 0);
      var placed := Placed(s.files, input.attachments, draw.blobs, m);
      if Upload(n) in placed {
        var i := PlacedIndex(s.files, input.attachments, draw.blobs, m, Upload(n));
      }
    } else if Upload(n) in Temps(input.attachments[..m]) {
      var i :| 0 <= i < m && Upload(n) == TempOf(input.attachments[..m][i]);
      assert TempOf(input.attachments[i]) == Upload(n);
    }
  }

  /** Create touches no upload but those it is told about. */
  lemma CreateKeepsOtherUploads(s: State, input: CreateInput, now: Instant, draw: Draw, fault: Fault, n: Id)
    requires |draw.attachments| == |draw.blobs| == |input.attachments| && AllStaged(input.attachments)
    ensures var u := CreateSpec(s, input, now, draw, fault).0;
            && (Upload(n) in u.files ==> Upload(n) in s.files && u.files[Upload(n)] == s.files[Upload(n)])
            && (Upload(n) in s.files && Upload(n) !in Temps(input.attachments) ==> Upload(n) in u.files)
  {
    hide Used, StoreSpec;
    var admitted := Admit(s.quota, |input.text|, input.attachments);
    if admitted.Ok? {
      StoringKeepsOtherUploads(s.(clock := now, minted := s.minted + draw.Ids()), input, draw, fault, admitted.value,
                               n);
    }
  }

  /** At every exit the temporary directory holds exactly the uploads it held before, whatever the request was. */
  lemma NothingLeftStaged(s: State, c: Config, request: Request, now: Instant, draw: Draw, fault: Fault, n: Id)
    requires Known(s) && WellFormed(request.parts, s.minted)
    requires |draw.attachments| == |draw.blobs| == Count(FilePart, request.parts)
    ensures var u := UploadSpec(s, c, request, now, draw, fault).0;
            && (Upload(n) in u.files <==> Upload(n) in s.files)
            && (Upload(n) in s.files ==> u.files[Upload(n)] == s.files[Upload(n)])
  {
    hide CreateSpec, Sum;
    if EarlyAnswer(c, request).None? {
      var staged := s.(files := s.files + UploadsOf(request.parts), minted := s.minted + TempsIn(request.parts));
      StagedPaths(request.parts);
      CreateKeepsOtherUploads(staged, InputFor(request), now, draw, fault, n);
      if Upload(n) in s.files {
        assert Upload(n).name in s.minted;
      }
    }
  }

  /** Two requests have the same hash only if they have the same actor and the same key. */
  lemma PreimageInjective(a: string, k: string, b: string, l: string)
    requires 0 as char !in a && 0 as char !in b && Preimage(a, k) == Preimage(b, l)
    ensures a == b && k == l
  {
    CutInjective(0 as char, a, k, b, l);
  }

  /** Nothing but the uploads of the first m parts, and identifiers, has been added to s. */
  ghost predicate StagedOnly(s: State, u: State, parts: seq<Part>, m: nat)
    requires m <= |parts|
  {
    Inv(u) && SameButDrawn(s.(files := s.files + UploadsOf(parts[..m])), u)
  }

  /** Exactly the first i parts have been staged since s. */
  ghost predicate StagedSoFar(s: State, u: State, parts: seq<Part>, i: nat)
    requires i <= |parts|
  {
    Inv(u) && u == StagedState(s, parts[..i]) && StagedOnly(s, u, parts, i)
  }

  lemma SoFarIsOnly(s: State, u: State, parts: seq<Part>, i: nat)
    requires i <= |parts| && StagedSoFar(s, u, parts, i)
    ensures StagedOnly(s, u, parts, i)
  {
  }

  lemma PendingSoFar(c: Config, parts: seq<Part>, i: nat, v: Progress)
    requires Summary(c, parts, i, v)
    ensures v.pending == FilesOf(parts[..i])
  {
  }

  lemma Leaving(c: Config, s: State, u: State, parts: seq<Part>, i: nat, v: Progress)
    requires i <= |parts| && StagedSoFar(s, u, parts, i) && Summary(c, parts, i, v)
    ensures StagedOnly(s, u, parts, i) && v.pending == FilesOf(parts[..i])
  {
  }

  lemma SummaryStarts(c: Config, parts: seq<Part>)
    requires c.Sane() && Sized(parts)
    ensures Summary(c, parts, 0, Progress([], 1, false, false, [], 0))
  {
    assert parts[..0] == [];
  }

  /** The loop's variables at its end are what the parts as a whole amount to. */
  lemma SummaryEnds(c: Config, parts: seq<Part>, broken: bool, v: Progress)
    requires Summary(c, parts, |parts|, v)
    ensures Verdict(c, parts, broken) == if broken then Some(InvalidMultipart) else None
    ensures v.text == TextOf(parts) && v.ttlDays == DaysOf(parts) && Sized(parts) && v.pending == FilesOf(parts)
  {
    assert parts[..|parts|] == parts;
  }

  lemma StagingStarts(c: Config, s: State, parts: seq<Part>)
    requires c.Sane() && Inv(s) && WellFormed(parts, s.minted)
    ensures Summary(c, parts, 0, Progress([], 1, false, false, [], 0)) && [] == FilesOf(parts[..0])
    ensures StagedSoFar(s, s, parts, 0)
  {
    hide Inv;
    SummaryStarts(c, parts);
    assert parts[..0] == [] && s.files + map[] == s.files && s.minted + {} == s.minted;
  }

  lemma StagingEnds(c: Config, s: State, u: State, parts: seq<Part>, broken: bool, v: Progress)
    requires Summary(c, parts, |parts|, v) && StagedSoFar(s, u, parts, |parts|)
    ensures Verdict(c, parts, broken) == if broken then Some(InvalidMultipart) else None
    ensures v.text == TextOf(parts) && v.ttlDays == DaysOf(parts)
    ensures u == StagedState(s, parts) && StagedOnly(s, u, parts, |parts|)
    ensures v.pending == FilesOf(parts[..|parts|]) && |v.pending| == Count(FilePart, parts)
  {
    assert parts[..|parts|] == parts;
  }

  lemma NothingMoreStaged(s: State, u: State, parts: seq<Part>, i: nat)
    requires i < |parts| && KindOf(parts[i]) != FilePart && StagedSoFar(s, u, parts, i)
    ensures StagedSoFar(s, u, parts, i + 1)
  {
    hide Inv;
    Snoc(parts, i);
  }

  lemma OneMoreStaged(s: State, parts: seq<Part>, i: nat)
    requires i < |parts| && KindOf(parts[i]) == FilePart && WellFormed(parts, s.minted)
    ensures var t := StagedState(s, parts[..i]);
            && parts[i].temp !in t.minted && |parts[i].contents| < MAX_INT64
            && Apply(t, StageUpload(parts[i].temp, parts[i].contents)) == StagedState(s, parts[..i + 1])
    ensures var u := StagedState(s, parts[..i + 1]); Inv(u) ==> StagedOnly(s, u, parts, i + 1)
  {
    hide Inv;
    Snoc(parts, i);
    TempUnused(parts, i, s.minted);
    var f, u := s.files, UploadsOf(parts[..i]);
    assert (f + u)[Upload(parts[i].temp) := parts[i].contents] == f + u[Upload(parts[i].temp) := parts[i].contents];
  }

  lemma StagingFailed(s: State, parts: seq<Part>, i: nat, u: State)
    requires i <= |parts| && Inv(u) && SameButDrawn(StagedState(s, parts[..i]), u)
    ensures StagedOnly(s, u, parts, i)
  {
    hide Inv;
  }

  datatype Gathered = Gathered(text: Bytes, ttlDays: int)

  /** A temporary file under a new name keeps the invariant, both while it is there and once it is removed again. */
  lemma StagingOne(s: State, name: Id, bytes: Bytes)
    requires Inv(s) && name !in s.minted
    ensures Upload(name) !in s.files
    ensures Enabled(s, StageUpload(name, bytes)) && Inv(Apply(s, StageUpload(name, bytes)))
    ensures Apply(s, StageUpload(name, bytes))
         == s.(files := s.files[Upload(name) := bytes], minted := s.minted + {name})
    ensures Inv(s.(minted := s.minted + {name}))
  {
    StepKeepsInv(s, StageUpload(name, bytes));
    TimePasses(s, s.clock, {name});
  }

  class Api {
    const store: Store
    const config: Config

    constructor (store: Store, config: Config)
      ensures this.store == store && this.config == config
    {
      this.store, this.config := store, config;
    }

    /** stageAttachment: a temporary file with the part's bytes, or no file at all. */
    method StageAttachment(p: Part) returns (r: Outcome<Pending, Code>)
      requires p.temp !in store.minted && |p.contents| < MAX_INT64
      requires 0 <= config.maxAttachmentBytes < MAX_INT64 as int64
      requires Inv(store.View())
      modifies store`files, store`minted
      ensures Inv(store.View())
      ensures FileFailure(config, p) == if r.Ok? then None else Some(r.error)
      ensures r.Err? ==> SameButDrawn(old(store.View()), store.View()) && store.minted <= old(store.minted) + {p.temp}
      ensures r.Ok? ==>
                && r.value == PendingFor(p)
                && store.View() == Apply(old(store.View()), StageUpload(p.temp, p.contents))
    {
      hide Inv, Enabled, Apply;
      if p.createFails {
        return Err(StorageUnavailable);
      }
      StagingOne(store.View(), p.temp, p.contents);
      store.minted := store.minted + {p.temp};
      var limit := config.maxAttachmentBytes + 1;
      var written := if |p.contents| < limit as int then p.contents else p.contents[..limit];
      store.files := store.files[Upload(p.temp) := written];
      if p.readFails || |written| > config.maxAttachmentBytes as int {
        store.files := store.files - {Upload(p.temp)};
        assert store.files == old(store.files);
        return Err(if p.readFails then UploadFailed else AttachmentTooLarge);
      }
      r := Ok(PendingFor(p));
    }

    /** StageAttachment for the i-th part of a body whose earlier parts have been staged since before. */
    method StageNext(ghost before: State, parts: seq<Part>, i: nat) returns (r: Outcome<Pending, Code>)
      requires i < |parts| && KindOf(parts[i]) == FilePart && WellFormed(parts, before.minted) && config.Sane()
      requires StagedSoFar(before, store.View(), parts, i)
      modifies store`files, store`minted
      ensures FileFailure(config, parts[i]) == if r.Ok? then None else Some(r.error)
      ensures StagedOnly(before, store.View(), parts, if r.Ok? then i + 1 else i)
      ensures |parts[i].contents| < MAX_INT64
      ensures r.Ok? ==>
                r.value == PendingFor(parts[i]) && StagedSoFar(before, store.View(), parts, i + 1)
    {
      hide Inv, StagedState, StagedOnly, FileFailure;
      OneMoreStaged(before, parts, i);
      r := StageAttachment(parts[i]);
      if r.Err? {
        StagingFailed(before, parts, i, store.View());
      }
    }

    /** The multipart loop. On every exit pending holds the files staged so far, those of the first m parts. */
    method Gather(parts: seq<Part>, broken: bool)
      returns (r: Outcome<Gathered, Code>, pending: seq<Pending>, ghost m: nat)
      requires config.Sane() && Inv(store.View()) && WellFormed(parts, store.View().minted)
      modifies store`files, store`minted
      ensures m <= |parts| && pending == FilesOf(parts[..m])
      ensures StagedOnly(old(store.View()), store.View(), parts, m)
      ensures var verdict := Verdict(config, parts, broken);
              if verdict.Some? then r == Err(verdict.value)
              else r == Ok(Gathered(TextOf(parts), DaysOf(parts))) && m == |parts|
                   && |pending| == Count(FilePart, parts)
                   && store.View() == StagedState(old(store.View()), parts)
    {
      hide *;
      ghost var before := store.View();
      StagingStarts(config, before, parts);
      var text: Bytes, ttlDays: int := [], 1;
      var seenText, seenTtl := false, false;
      var total: int64 := 0;
      pending, m := [], 0;
      var i := 0;
      var refusal: Option<Code> := None;
      while i < |parts|
        invariant 0 <= i <= |parts| && m == i && refusal.None? && 0 <= total
        invariant Summary(config, parts, i, Progress(text, ttlDays, seenText, seenTtl, pending, total as int))
        invariant StagedSoFar(before, store.View(), parts, i)
      {
        var p := parts[i];
        ghost var v := Progress(text, ttlDays, seenText, seenTtl, pending, total as int);
        if KindOf(p) == TextPart && !seenText {
          if p.readFails || |p.contents| > config.maxItemBytes as int || !ValidUtf8(p.contents) {
            PartRefused(config, parts, broken, i, v);
            Leaving(config, before, store.View(), parts, i, v);
            refusal := Some(InvalidText);
            break;
          }
          NothingMoreStaged(before, store.View(), parts, i);
          TextTaken(config, parts, broken, i, v);
          seenText := true;
          text := p.contents;
          total := total + |p.contents| as int64;
        } else if KindOf(p) == TtlPart && !seenTtl {
          var days := DaysIn(p);
          if days.None? {
            PartRefused(config, parts, broken, i, v);
            Leaving(config, before, store.View(), parts, i, v);
            refusal := Some(InvalidTtl);
            break;
          }
          NothingMoreStaged(before, store.View(), parts, i);
          TtlTaken(config, parts, broken, i, v);
          seenTtl := true;
          ttlDays := days.value;
        } else if KindOf(p) == FilePart {
          if |pending| >= config.maxAttachments {
            PartRefused(config, parts, broken, i, v);
            Leaving(config, before, store.View(), parts, i, v);
            refusal := Some(TooManyAttachments);
            break;
          }
          var staged := StageNext(before, parts, i);
          if staged.Err? {
            PartRefused(config, parts, broken, i, v);
            PendingSoFar(config, parts, i, v);
            refusal := Some(staged.error);
            break;
          }
          FileTaken(config, parts, broken, i, v);
          pending := pending + [staged.value];
          total := total + staged.value.size;
        } else {
          PartRefused(config, parts, broken, i, v);
          Leaving(config, before, store.View(), parts, i, v);
          refusal := Some(UnexpectedField);
          break;
        }
        i, m := i + 1, m + 1;
        if total > config.maxItemBytes {
          SoFarIsOnly(before, store.View(), parts, i);
          refusal := Some(ItemTooLarge);
          break;
        }
      }
      if refusal.Some? {
        return Err(refusal.value), pending, m;
      }
      StagingEnds(config, before, store.View(), parts, broken,
                  Progress(text, ttlDays, seenText, seenTtl, pending, total as int));
      if broken {
        return Err(InvalidMultipart), pending, m;
      }
      r := Ok(Gathered(text, ttlDays));
    }

    /** The deferred os.Remove of every file this request has staged; what was moved meanwhile is skipped. */
    method RemovePending(pending: seq<Pending>)
      requires AllStaged(pending)
      modifies store`files
      ensures store.files == old(store.files) - Temps(pending)
    {
      var i := 0;
      while i < |pending|
        invariant 0 <= i <= |pending|
        invariant store.files == old(store.files) - Temps(pending[..i])
      {
        store.files := store.files - {TempOf(pending[i])};
        TempsSnoc(pending, i);
        i := i + 1;
      }
      assert pending[..i] == pending;
    }

    /** POST /v1/items. */
    method CreateItem(request: Request, now: Instant, draw: Draw, fault: Fault) returns (answer: Answer)
      requires config.Sane() && Inv(store.View()) && store.clock <= now
      requires WellFormed(request.parts, store.View().minted)
      requires draw.Fresh(Count(FilePart, request.parts), store.View().minted + TempsIn(request.parts))
      modifies store
      ensures Inv(store.View())
      ensures Meets(old(store.View()), config, request, now, draw, fault, store.View(), answer)
    {
      hide *;
      ghost var before := store.View();
      Entering(store, config, request, draw);
      if request.contentLength > config.maxItemBytes as int + 0x200_0000 {
        MeetsEarly(before, config, request, now, draw, fault, ItemTooLarge, before);
        return Refused(ItemTooLarge);
      }
      if !request.isMultipart {
        MeetsEarly(before, config, request, now, draw, fault, MultipartRequired, before);
        return Refused(MultipartRequired);
      }
      var gathered, pending, m := Gather(request.parts, request.broken);
      Unstaged(before, request.parts, m, store.View(), pending);
      ViewOf(store);
      var refusal: Code;
      if gathered.Err? {
        refusal := gathered.error;
      } else if gathered.value.text == [] && |pending| == 0 {
        refusal := EmptyItem;
      } else if gathered.value.ttlDays != 1 && gathered.value.ttlDays != 3 && gathered.value.ttlDays != 7 {
        refusal := InvalidTtl;
      } else if KeyOf(request).None? {
        refusal := InvalidKey;
      } else {
        CallReady(before, config, request);
        var r := store.Create(InputFor(request), now, draw, fault);
        LosingUploadsAfter(store.View(), pending);
        ViewOf(store);
        RemovePending(pending);
        ViewOf(store);
        answer := if r.Ok? then Accepted(r.value) else Failed(r.error);
        MeetsLate(before, config, request, now, draw, fault, store.View(), answer);
        return;
      }
      RemovePending(pending);
      ViewOf(store);
      MeetsEarly(before, config, request, now, draw, fault, refusal, store.View());
      answer := Refused(refusal);
    }
  }

  lemma ViewOf(store: Store)
    ensures store.View() == State(store.tables, store.files, store.clock, store.quotaBytes as int, store.minted,
                                  store.contents)
  {
  }

  lemma Entering(store: Store, c: Config, request: Request, draw: Draw)
    requires WellFormed(request.parts, store.View().minted)
    requires draw.Fresh(Count(FilePart, request.parts), store.View().minted + TempsIn(request.parts))
    ensures |draw.attachments| == |draw.blobs| == Count(FilePart, request.parts)
    ensures store.View() == State(store.tables, store.files, store.clock, store.quotaBytes as int, store.minted,
                                  store.contents)
    ensures request.parts[..|request.parts|] == request.parts
    ensures request.contentLength > c.maxItemBytes as int + 0x200_0000 ==> EarlyAnswer(c, request) == Some(ItemTooLarge)
    ensures request.contentLength <= c.maxItemBytes as int + 0x200_0000 ==>
              if !request.isMultipart then EarlyAnswer(c, request) == Some(MultipartRequired)
              else if Verdict(c, request.parts, request.broken).Some?
              then EarlyAnswer(c, request) == Verdict(c, request.parts, request.broken)
              else EarlyAnswer(c, request)
                   == if TextOf(request.parts) == [] && Count(FilePart, request.parts) == 0 then Some(EmptyItem)
                      else if DaysOf(request.parts) !in {1, 3, 7} then Some(InvalidTtl)
                      else if KeyOf(request).None? then Some(InvalidKey)
                      else None
  {
    hide Verdict, TextOf, DaysOf, Count, KeyOf;
  }

  /** What CreateItem promises: UploadSpec, but for identifiers that an early refusal has drawn in vain. */
  ghost predicate Meets(s: State, c: Config, request: Request, now: Instant, draw: Draw, fault: Fault, u: State,
                        answer: Answer)
    requires WellFormed(request.parts, s.minted)
    requires |draw.attachments| == |draw.blobs| == Count(FilePart, request.parts)
  {
    var (t, a) := UploadSpec(s, c, request, now, draw, fault);
    answer == a && if EarlyAnswer(c, request).Some? then SameButDrawn(t, u) else u == t
  }

  lemma MeetsEarly(s: State, c: Config, request: Request, now: Instant, draw: Draw, fault: Fault, code: Code, u: State)
    requires WellFormed(request.parts, s.minted)
    requires |draw.attachments| == |draw.blobs| == Count(FilePart, request.parts)
    requires EarlyAnswer(c, request) == Some(code) && (u == s || SameButDrawn(s, u))
    ensures Meets(s, c, request, now, draw, fault, u, Refused(code))
  {
    hide CreateSpec, StagedState;
  }

  lemma MeetsLate(s: State, c: Config, request: Request, now: Instant, draw: Draw, fault: Fault, u: State,
                  answer: Answer)
    requires WellFormed(request.parts, s.minted)
    requires |draw.attachments| == |draw.blobs| == Count(FilePart, request.parts)
    requires EarlyAnswer(c, request).None? && AllStaged(FilesOf(request.parts))
    requires var (v, r) := CreateSpec(StagedState(s, request.parts), InputFor(request), now, draw, fault);
             u == v.(files := v.files - Temps(FilesOf(request.parts)))
             && answer == if r.Ok? then Accepted(r.value) else Failed(r.error)
    ensures Meets(s, c, request, now, draw, fault, u, answer)
  {
    hide CreateSpec, StagedState;
    StagedPaths(request.parts);
  }

  /** The store is called as it demands. */
  lemma CallReady(s: State, c: Config, request: Request)
    requires c.Sane() && WellFormed(request.parts, s.minted) && EarlyAnswer(c, request).None?
    ensures Sized(request.parts) && KeyOf(request).Some?
    ensures |InputFor(request).text| <= MAX_INT64 && InputFor(request).attachments == FilesOf(request.parts)
    ensures SizesMatch(StagedState(s, request.parts).files, InputFor(request).attachments)
    ensures StagedState(s, request.parts).minted == s.minted + TempsIn(request.parts)
    ensures StagedState(s, request.parts).clock == s.clock
  {
    StagedSizesMatch(request.parts, s.files);
    StoreCallBounded(c, request, s.minted);
  }

  /** Removing what the first m parts have staged restores the directory. */
  lemma Unstaged(s: State, parts: seq<Part>, m: nat, u: State, pending: seq<Pending>)
    requires Inv(s) && WellFormed(parts, s.minted) && m <= |parts| && pending == FilesOf(parts[..m])
    requires StagedOnly(s, u, parts, m)
    ensures AllStaged(pending) && SameButDrawn(s, u.(files := u.files - Temps(pending)))
    ensures Inv(u) && Inv(u.(files := u.files - Temps(pending)))
  {
    hide Constraints, BlobsAgree, TotalsExact, WithinQuota, FilesOf, UploadsOf, TempsIn;
    var taken := parts[..m];
    StagedPaths(taken);
    LosingUploadsAfter(u, pending);
    forall p | p in s.files ensures p !in UploadsOf(taken) {
      assert p.name in s.minted;
      assert p in UploadsOf(taken) ==> p.name in TempsIn(taken);
    }
    assert s.files + UploadsOf(taken) - Temps(pending) == s.files;
  }

  lemma TempsSnoc(pending: seq<Pending>, i: nat)
    requires AllStaged(pending) && i < |pending|
    ensures Temps(pending[..i + 1]) == Temps(pending[..i]) + {TempOf(pending[i])}
  {
    forall p ensures p in Temps(pending[..i + 1]) <==> p in Temps(pending[..i]) || p == TempOf(pending[i]) {
      if p in Temps(pending[..i]) {
        var j :| 0 <= j < i && TempOf(pending[..i][j]) == p;
        assert pending[..i + 1][j] == pending[j];
      }
      if p == TempOf(pending[i]) { assert pending[..i + 1][i] == pending[i]; }
      if p in Temps(pending[..i + 1]) {
        var j :| 0 <= j < i + 1 && TempOf(pending[..i + 1][j]) == p;
        if j < i { assert pending[..i][j] == pending[j]; }
      }
    }
  }

  lemma TempUnused(parts: seq<Part>, i: nat, minted: set<Id>)
    requires WellFormed(parts, minted) && i < |parts|
    ensures parts[i].temp !in minted + TempsIn(parts[..i])
  {
    StagedPaths(parts[..i]);
  }

  lemma LosingUploadsAfter(s: State, pending: seq<Pending>)
    requires Inv(s) && AllStaged(pending)
    ensures Inv(s.(files := s.files - Temps(pending)))
  {
    hide Sum;
    LosingUploadsKeepsInv(s, s.(files := s.files - Temps(pending)));
  }
}
