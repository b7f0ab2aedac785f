/** The browser-side batch extractor `VercelAIService.processFiles` and the
    progress reducer of its `useVercelAI` hook. Text extraction (pdf.js, OCR,
    mammoth, FileReader), the call to the extraction endpoint and
    `crypto.randomUUID` are inputs: each file comes with what reading it gives
    and what the endpoint answers, and the ids are a given sequence. */
module VercelAIService {
  import opened Wrappers
  import opened JsText
  import opened Offers
  import Seqs

  // ================================================================ inputs

  const MaxFileSize: nat := 10 * 1024 * 1024
  const MinTextLength: nat := 50
  const RequestTextLength: nat := 15000

  /** What the text-extraction library gives for a file. */
  datatype TextOutcome = Text(text: string) | ReadError(message: string)

  /** What the endpoint answers: a failed request (the call throws with
      `message`), or a JSON body whose `offers` may be absent. */
  datatype ApiReply =
    | HttpFailure(message: string)
    | Body(success: bool, offers: Option<seq<Offer>>)

  /** A file of the batch with its collaborators' behaviour. */
  datatype FileInput = FileInput(name: string, size: nat, read: TextOutcome, reply: ApiReply)

  /** Why a file produced an error event. */
  datatype FailureReason =
    | TooLarge(megabytes: nat)
    | Unreadable(message: string)
    | RequestFailed(message: string)
    | NoOffersField

  /** The body posted to the endpoint. */
  datatype ApiRequest = ApiRequest(text: string, fileName: string)

  /** An offer as the batch returns it, tagged with an id and its file. */
  datatype TaggedOffer = TaggedOffer(offer: Offer, id: string, sourceFile: string)

  // ================================================================ one file

  /** `Math.round(bytes / 1024 / 1024)`. */
  function RoundedMegabytes(bytes: nat): (r: nat)
    ensures r * 1048576 <= bytes + 524288 < (r + 1) * 1048576
  {
    (bytes + 524288) / 1048576
  }

  /** `extractTextFromFile`: files over 10 MiB are refused before any extraction. */
  function ExtractTextFromFile(f: FileInput): (r: Result<string, FailureReason>)
    ensures r.Failure? && r.error.TooLarge? <==> f.size > MaxFileSize
    ensures f.size > MaxFileSize ==> r == Failure(TooLarge(RoundedMegabytes(f.size)))
    ensures f.size <= MaxFileSize ==> (r.Success? <==> f.read.Text?)
  {
    if f.size > MaxFileSize then Failure(TooLarge(RoundedMegabytes(f.size)))
    else match f.read
      case Text(t) => Success(t)
      case ReadError(m) => Failure(Unreadable(m))
  }

  /** The request `callVercelAPI` posts: the first 15000 characters and the name. */
  function RequestFor(text: string, name: string): (q: ApiRequest)
    ensures |q.text| <= RequestTextLength && |q.text| <= |text| && q.text == text[..|q.text|]
    ensures |text| <= RequestTextLength ==> q.text == text
    ensures q.fileName == name
  {
    ApiRequest(SliceTo(text, RequestTextLength), name)
  }

  /** The branch one iteration of the loop takes. */
  datatype FileOutcome =
    | ReadFailed(reason: FailureReason)
    | TooShort
    | CallFailed(reason: FailureReason)
    | NothingFound
    | Found(offers: seq<Offer>)

  /** How many offers a branch finds. */
  function OfferCount(o: FileOutcome): nat
  {
    if o.Found? then |o.offers| else 0
  }

  /** Which branch file `f` takes: read failure, too short a text, a failed
      call, a body without offers (`success` false or an empty list), a body
      with `success` and no `offers` property (reading its length throws), or
      offers. */
  function Outcome(f: FileInput): (r: FileOutcome)
    ensures r.Found? ==> |r.offers| > 0
  {
    match ExtractTextFromFile(f)
    case Failure(reason) => ReadFailed(reason)
    case Success(t) =>
      if |Trim(t)| < MinTextLength then TooShort else ReplyOutcome(f.reply)
  }

  /** The branch a file whose text is long enough takes, given the endpoint's answer. */
  function ReplyOutcome(reply: ApiReply): (r: FileOutcome)
    ensures r.Found? ==> |r.offers| > 0
  {
    match reply
    case HttpFailure(m) => CallFailed(RequestFailed(m))
    case Body(success, offers) =>
      if !success then NothingFound
      else match offers
        case None => CallFailed(NoOffersField)
        case Some(os) => if |os| > 0 then Found(os) else NothingFound
  }

  /** The request made for file `f`, if any. */
  function FileRequest(f: FileInput): (r: Option<ApiRequest>)
    ensures r.Some? <==> ExtractTextFromFile(f).Success? && |Trim(ExtractTextFromFile(f).value)| >= MinTextLength
  {
    match ExtractTextFromFile(f)
    case Success(t) => if |Trim(t)| < MinTextLength then None else Some(RequestFor(t, f.name))
    case Failure(_) => None
  }

  /** The offers a file named `name` contributes when its branch is `o`,
      each paired with the name. */
  function ContributionOf(o: FileOutcome, name: string): (r: seq<(Offer, string)>)
    ensures |r| == OfferCount(o)
    ensures forall k :: 0 <= k < |r| ==> o.Found? && r[k] == (o.offers[k], name)
  {
    match o
    case Found(os) => seq(|os|, k requires 0 <= k < |os| => (os[k], name))
    case _ => []
  }

  /** The offers file `f` contributes. */
  function Contribution(f: FileInput): (r: seq<(Offer, string)>)
    ensures |r| > 0 <==> Outcome(f).Found?
    ensures |r| == OfferCount(Outcome(f))
    ensures forall k :: 0 <= k < |r| ==> r[k].1 == f.name
  {
    ContributionOf(Outcome(f), f.name)
  }

  // ================================================================ progress events

  datatype StepKind =
    | Initializing
    | Starting
    | Reading
    | ContentTooShort
    | Analyzing
    | Extracted(count: nat)
    | NoOfferFound
    | Failed(reason: FailureReason)
    | Finished(total: nat)

  /** A progress event; the label text is represented by its kind. */
  datatype ProcessingStep =
    ProcessingStep(kind: StepKind, progress: Percent, fileName: Option<string>, offersFound: Option<nat>)

  /** A progress percentage: `(i / n) * k`, kept as its factors, or a constant. */
  datatype Percent = Ratio(i: nat, n: nat, k: nat) | Whole(v: nat)
  {
    function Value(): real
      requires Ratio? ==> n > 0
    {
      match this
      case Ratio(i, n, k) => (i as real / n as real) * k as real
      case Whole(v) => v as real
    }
  }

  /** A per-file percentage lies in `[0, k)`. */
  lemma RatioBelow(i: nat, n: nat, k: nat)
    requires i < n && k > 0
    ensures 0.0 <= Ratio(i, n, k).Value() < k as real
  {
    var ratio := i as real / n as real;
    assert 0.0 <= ratio < 1.0;
    assert ratio * k as real < 1.0 * k as real;
  }

  /** The events a file named `name`, `i`-th of `n`, emits when its branch
      is `o`: a reading event first, and exactly one event with a count,
      last, the number of offers the branch contributes; all carry the name. */
  function OutcomeEvents(o: FileOutcome, name: string, i: nat, n: nat): (r: seq<ProcessingStep>)
    requires i < n
    ensures 2 <= |r| <= 3
    ensures r[0] == ProcessingStep(Reading, Ratio(i, n, 20), Some(name), None)
    ensures forall k :: 0 <= k < |r| ==> r[k].fileName == Some(name)
    ensures forall k :: 0 <= k < |r| - 1 ==> r[k].offersFound.None?
    ensures r[|r| - 1].offersFound == Some(OfferCount(o))
  {
    var reading := ProcessingStep(Reading, Ratio(i, n, 20), Some(name), None);
    var analyzing := ProcessingStep(Analyzing, Ratio(i, n, 60), Some(name), None);
    match o
    case ReadFailed(reason) =>
      [reading, ProcessingStep(Failed(reason), Ratio(i, n, 90), Some(name), Some(0))]
    case TooShort =>
      [reading, ProcessingStep(ContentTooShort, Ratio(i, n, 50), Some(name), Some(0))]
    case CallFailed(reason) =>
      [reading, analyzing, ProcessingStep(Failed(reason), Ratio(i, n, 90), Some(name), Some(0))]
    case NothingFound =>
      [reading, analyzing, ProcessingStep(NoOfferFound, Ratio(i, n, 90), Some(name), Some(0))]
    case Found(os) =>
      [reading, analyzing, ProcessingStep(Extracted(|os|), Ratio(i, n, 90), Some(name), Some(|os|))]
  }

  /** The events file `i` of `n` emits, in order: the same shape, the
      last one counting the offers the file contributes. */
  function FileEvents(f: FileInput, i: nat, n: nat): (r: seq<ProcessingStep>)
    requires i < n
    ensures 2 <= |r| <= 3
    ensures r[0] == ProcessingStep(Reading, Ratio(i, n, 20), Some(f.name), None)
    ensures forall k :: 0 <= k < |r| ==> r[k].fileName == Some(f.name)
    ensures r[|r| - 1].offersFound == Some(|Contribution(f)|)
  {
    OutcomeEvents(Outcome(f), f.name, i, n)
  }

  // ================================================================ the batch

  function OutcomesOf(files: seq<FileInput>): (r: seq<FileOutcome>)
    ensures |r| == |files| && forall j :: 0 <= j < |files| ==> r[j] == Outcome(files[j])
  {
    seq(|files|, j requires 0 <= j < |files| => Outcome(files[j]))
  }

  function NamesOf(files: seq<FileInput>): (r: seq<string>)
    ensures |r| == |files| && forall j :: 0 <= j < |files| ==> r[j] == files[j].name
  {
    seq(|files|, j requires 0 <= j < |files| => files[j].name)
  }

  /** The offers of the first `k` files, in file order, given only each
      file's branch and name. */
  function GatheredUpTo(os: seq<FileOutcome>, names: seq<string>, k: nat): seq<(Offer, string)>
    requires k <= |os| == |names|
  {
    if k == 0 then [] else GatheredUpTo(os, names, k - 1) + ContributionOf(os[k - 1], names[k - 1])
  }

  /** The events of the first `k` files, given only each file's branch and name. */
  function TraceUpTo(os: seq<FileOutcome>, names: seq<string>, k: nat): seq<ProcessingStep>
    requires k <= |os| == |names|
  {
    if k == 0 then [] else TraceUpTo(os, names, k - 1) + OutcomeEvents(os[k - 1], names[k - 1], k - 1, |os|)
  }

  /** The number of offers the first `k` files find. */
  function FoundUpTo(os: seq<FileOutcome>, k: nat): nat
    requires k <= |os|
  {
    if k == 0 then 0 else FoundUpTo(os, k - 1) + OfferCount(os[k - 1])
  }

  /** The offers of the first `k` files, in file order. */
  function ContributedUpTo(files: seq<FileInput>, k: nat): seq<(Offer, string)>
    requires k <= |files|
  {
    GatheredUpTo(OutcomesOf(files), NamesOf(files), k)
  }

  function Contributed(files: seq<FileInput>): seq<(Offer, string)>
  {
    ContributedUpTo(files, |files|)
  }

  /** The events of the first `k` files. */
  function EventsUpTo(files: seq<FileInput>, k: nat): seq<ProcessingStep>
    requires k <= |files|
  {
    TraceUpTo(OutcomesOf(files), NamesOf(files), k)
  }

  /** The requests made for the first `k` files. */
  function RequestsUpTo(files: seq<FileInput>, k: nat): seq<ApiRequest>
    requires k <= |files|
  {
    if k == 0 then []
    else RequestsUpTo(files, k - 1) + FileRequest(files[k - 1]).ToSeq()
  }

  const StartEvent: ProcessingStep := ProcessingStep(Starting, Whole(0), None, None)

  function FinishEvent(total: nat): ProcessingStep
  {
    ProcessingStep(Finished(total), Whole(100), None, None)
  }

  /** Every event of a batch: the start, each file's events, the end. */
  function BatchEvents(files: seq<FileInput>): seq<ProcessingStep>
  {
    BatchTrace(OutcomesOf(files), NamesOf(files))
  }

  /** The same, given only each file's branch and name. */
  function BatchTrace(os: seq<FileOutcome>, names: seq<string>): seq<ProcessingStep>
    requires |os| == |names|
  {
    [StartEvent] + TraceUpTo(os, names, |os|) + [FinishEvent(|GatheredUpTo(os, names, |os|)|)]
  }

  lemma {:induction false} GatheredGrows(os: seq<FileOutcome>, names: seq<string>, k: nat, m: nat)
    requires k <= m <= |os| == |names|
    ensures |GatheredUpTo(os, names, k)| <= |GatheredUpTo(os, names, m)|
    decreases m
  {
    if k < m {
      GatheredGrows(os, names, k, m - 1);
    }
  }

  /** An offer of file `p.1` given the id `id`. */
  function Tag(p: (Offer, string), id: string): TaggedOffer
  {
    TaggedOffer(p.0, id, p.1)
  }

  /** The offers of `pairs` tagged with the ids from position `start` on. */
  function TagFrom(pairs: seq<(Offer, string)>, ids: seq<string>, start: nat): (r: seq<TaggedOffer>)
    requires start + |pairs| <= |ids|
    ensures |r| == |pairs|
    ensures forall k :: 0 <= k < |r| ==> r[k] == TaggedOffer(pairs[k].0, ids[start + k], pairs[k].1)
  {
    Seqs.LabelFrom(pairs, ids, start, Tag)
  }

  /** The `k`-th contributed offer gets the `k`-th id. */
  function Tagged(pairs: seq<(Offer, string)>, ids: seq<string>): (r: seq<TaggedOffer>)
    requires |pairs| <= |ids|
  {
    TagFrom(pairs, ids, 0)
  }

  /** How the batch's specification grows by one file. */
  lemma BatchStep(files: seq<FileInput>, i: nat, ids: seq<string>)
    requires i < |files| && |ids| >= |Contributed(files)|
    ensures |ContributedUpTo(files, i + 1)| <= |ids|
    ensures Tagged(ContributedUpTo(files, i + 1), ids)
            == Tagged(ContributedUpTo(files, i), ids) + TagFrom(Contribution(files[i]), ids, |ContributedUpTo(files, i)|)
    ensures EventsUpTo(files, i + 1) == EventsUpTo(files, i) + FileEvents(files[i], i, |files|)
  {
    var os, names := OutcomesOf(files), NamesOf(files);
    GatheredGrows(os, names, i + 1, |files|);
    assert ContributionOf(os[i], names[i]) == Contribution(files[i]);
    Seqs.LabelFromAppend(ContributedUpTo(files, i), Contribution(files[i]), ids, 0, Tag);
  }

  /** One iteration of the loop: what file `i` of `n` adds to the offers,
      the events it emits and the request it makes, `start` ids being used. */
  method ProcessFile(file: FileInput, i: nat, n: nat, ids: seq<string>, start: nat)
    returns (added: seq<TaggedOffer>, emitted: seq<ProcessingStep>, request: Option<ApiRequest>)
    requires i < n && start + |Contribution(file)| <= |ids|
    ensures added == TagFrom(Contribution(file), ids, start)
    ensures emitted == FileEvents(file, i, n)
    ensures request == FileRequest(file)
  {
    ghost var o := Outcome(file);
    assert Contribution(file) == ContributionOf(o, file.name);
    assert FileEvents(file, i, n) == OutcomeEvents(o, file.name, i, n);
    var reading := ProcessingStep(Reading, Ratio(i, n, 20), Some(file.name), None);
    var text := ExtractTextFromFile(file);
    if text.Failure? {
      assert o == ReadFailed(text.error);
      added, request := [], None;
      emitted := [reading, ProcessingStep(Failed(text.error), Ratio(i, n, 90), Some(file.name), Some(0))];
    } else if |Trim(text.value)| < MinTextLength {
      assert o == TooShort;
      added, request := [], None;
      emitted := [reading, ProcessingStep(ContentTooShort, Ratio(i, n, 50), Some(file.name), Some(0))];
    } else {
      assert o == ReplyOutcome(file.reply);
      var analysed;
      added, analysed := AnalyzeText(file.reply, file.name, i, n, ids, start);
      request := Some(RequestFor(text.value, file.name));
      emitted := [reading] + analysed;
    }
  }

  /** The part of an iteration after a long enough text was read: what the
      endpoint's answer adds and the events that follow the reading one. */
  method AnalyzeText(reply: ApiReply, name: string, i: nat, n: nat, ids: seq<string>, start: nat)
    returns (added: seq<TaggedOffer>, emitted: seq<ProcessingStep>)
    requires i < n && start + OfferCount(ReplyOutcome(reply)) <= |ids|
    ensures added == TagFrom(ContributionOf(ReplyOutcome(reply), name), ids, start)
    ensures emitted == OutcomeEvents(ReplyOutcome(reply), name, i, n)[1..]
  {
    added := [];
    var analyzing := ProcessingStep(Analyzing, Ratio(i, n, 60), Some(name), None);
    match reply {
      case HttpFailure(m) =>
        emitted := [analyzing, ProcessingStep(Failed(RequestFailed(m)), Ratio(i, n, 90), Some(name), Some(0))];
      case Body(success, found) =>
        if success && found.None? {
          emitted := [analyzing, ProcessingStep(Failed(NoOffersField), Ratio(i, n, 90), Some(name), Some(0))];
        } else if success && |found.value| > 0 {
          var os := found.value;
          added := seq(|os|, k requires 0 <= k < |os| => TaggedOffer(os[k], ids[start + k], name));
          emitted := [analyzing, ProcessingStep(Extracted(|os|), Ratio(i, n, 90), Some(name), Some(|os|))];
        } else {
          emitted := [analyzing, ProcessingStep(NoOfferFound, Ratio(i, n, 90), Some(name), Some(0))];
        }
    }
  }

  /** The loop's state after file `i` of `files`, `ids` handing out the offers' ids. */
  predicate ProcessedUpTo(files: seq<FileInput>, i: nat, ids: seq<string>,
                          offers: seq<TaggedOffer>, fileEvents: seq<ProcessingStep>, requests: seq<ApiRequest>)
    requires i <= |files|
  {
    && |ContributedUpTo(files, i)| <= |ids|
    && offers == Tagged(ContributedUpTo(files, i), ids)
    && fileEvents == EventsUpTo(files, i)
    && requests == RequestsUpTo(files, i)
  }

  /** One turn of the loop of `processFiles`: file `i` processed on top of the
      state left by the files before it. */
  method ProcessNext(files: seq<FileInput>, i: nat, ids: seq<string>,
                     offers: seq<TaggedOffer>, fileEvents: seq<ProcessingStep>, requests: seq<ApiRequest>)
    returns (offers': seq<TaggedOffer>, fileEvents': seq<ProcessingStep>, requests': seq<ApiRequest>)
    requires i < |files| && |ids| >= |Contributed(files)|
    requires ProcessedUpTo(files, i, ids, offers, fileEvents, requests)
    ensures ProcessedUpTo(files, i + 1, ids, offers', fileEvents', requests')
  {
    BatchStep(files, i, ids);
    var added, emitted, request := ProcessFile(files[i], i, |files|, ids, |offers|);
    offers' := offers + added;
    fileEvents' := fileEvents + emitted;
    requests' := requests;
    if request.Some? {
      requests' := requests + [request.value];
    }
  }

  /** `processFiles`: one pass over the files that never throws; `ids` are the
      values `crypto.randomUUID` hands out, in order. */
  method ProcessFiles(files: seq<FileInput>, ids: seq<string>)
    returns (offers: seq<TaggedOffer>, events: seq<ProcessingStep>, requests: seq<ApiRequest>)
    requires |ids| >= |Contributed(files)|
    ensures offers == Tagged(Contributed(files), ids)
    ensures events == BatchEvents(files)
    ensures requests == RequestsUpTo(files, |files|)
  {
    var n := |files|;
    offers := [];
    var fileEvents := [];
    requests := [];
    var i := 0;
    ProcessedNothing(files, ids);
    while i < n
      invariant 0 <= i <= n
      invariant ProcessedUpTo(files, i, ids, offers, fileEvents, requests)
    {
      offers, fileEvents, requests := ProcessNext(files, i, ids, offers, fileEvents, requests);
      i := i + 1;
    }
    assert fileEvents == EventsUpTo(files, n) && |offers| == |Contributed(files)|;
    events := [StartEvent] + fileEvents + [FinishEvent(|offers|)];
  }

  /** Before the first file, nothing is returned, emitted or requested. */
  lemma ProcessedNothing(files: seq<FileInput>, ids: seq<string>)
    ensures ProcessedUpTo(files, 0, ids, [], [], [])
  {
    assert ContributedUpTo(files, 0) == [];
  }

  // ================================================================ what the batch guarantees

  /** Every offer returned comes from a file whose call found it, and is tagged with that file's name. */
  lemma {:induction false} GatheredFromBranches(os: seq<FileOutcome>, names: seq<string>, k: nat)
    requires k <= |os| == |names|
    ensures forall p :: p in GatheredUpTo(os, names, k) ==>
              exists j :: 0 <= j < k && os[j].Found? && p.0 in os[j].offers && p.1 == names[j]
  {
    if k > 0 {
      GatheredFromBranches(os, names, k - 1);
      var here := ContributionOf(os[k - 1], names[k - 1]);
      forall p | p in GatheredUpTo(os, names, k)
        ensures exists j :: 0 <= j < k && os[j].Found? && p.0 in os[j].offers && p.1 == names[j]
      {
        if p in here {
          var m := Seqs.PositionOf(here, p);
          assert p.0 == os[k - 1].offers[m];
        } else {
          assert p in GatheredUpTo(os, names, k - 1);
        }
      }
    }
  }

  lemma ContributedFromFiles(files: seq<FileInput>, k: nat)
    requires k <= |files|
    ensures forall p :: p in ContributedUpTo(files, k) ==>
              exists j :: 0 <= j < k && Outcome(files[j]).Found? && p.0 in Outcome(files[j]).offers && p.1 == files[j].name
  {
    var os, names := OutcomesOf(files), NamesOf(files);
    GatheredFromBranches(os, names, k);
    forall p | p in ContributedUpTo(files, k)
      ensures exists j :: 0 <= j < k && Outcome(files[j]).Found? && p.0 in Outcome(files[j]).offers && p.1 == files[j].name
    {
      var j :| 0 <= j < k && os[j].Found? && p.0 in os[j].offers && p.1 == names[j];
      assert os[j] == Outcome(files[j]);
    }
  }

  /** A file whose text is too short, or which cannot be read, adds no offer
      and causes no request, whatever the endpoint would have answered. */
  lemma SkippedFileIgnoresReply(f: FileInput, reply: ApiReply)
    requires ExtractTextFromFile(f).Failure? || |Trim(ExtractTextFromFile(f).value)| < MinTextLength
    ensures Contribution(f) == [] && FileRequest(f) == None
    ensures FileEvents(f.(reply := reply), 0, 1) == FileEvents(f, 0, 1)
  {
    assert ExtractTextFromFile(f.(reply := reply)) == ExtractTextFromFile(f);
  }

  /** A file over 10 MiB is refused whatever reading it would give. */
  lemma OversizeFileIgnoresContent(f: FileInput, read: TextOutcome, reply: ApiReply)
    requires f.size > MaxFileSize
    ensures Outcome(f) == ReadFailed(TooLarge(RoundedMegabytes(f.size)))
    ensures Outcome(f.(read := read, reply := reply)) == Outcome(f)
    ensures Contribution(f) == [] && FileRequest(f) == None
  {
  }

  /** The request of a single file, when there is one. */
  lemma FileRequestShape(f: FileInput)
    ensures FileRequest(f).Some? ==> f.read.Text? && FileRequest(f).value == RequestFor(f.read.text, f.name)
  {
  }

  /** Each request carries a file's name and at most the first 15000 characters of its text. */
  lemma {:induction false} RequestsArePrefixes(files: seq<FileInput>, k: nat)
    requires k <= |files|
    ensures |RequestsUpTo(files, k)| <= k
    ensures forall q :: q in RequestsUpTo(files, k) ==>
              && |q.text| <= RequestTextLength
              && exists j :: 0 <= j < k && files[j].read.Text? && q.text <= files[j].read.text && q.fileName == files[j].name
  {
    if k > 0 {
      RequestsArePrefixes(files, k - 1);
      var f := files[k - 1];
      FileRequestShape(f);
      var here := FileRequest(f).ToSeq();
      assert RequestsUpTo(files, k) == RequestsUpTo(files, k - 1) + here;
      forall q | q in RequestsUpTo(files, k)
        ensures && |q.text| <= RequestTextLength
                && exists j :: 0 <= j < k && files[j].read.Text? && q.text <= files[j].read.text && q.fileName == files[j].name
      {
        if q !in RequestsUpTo(files, k - 1) {
          assert q == FileRequest(f).value;
          assert f.read.Text? && q.text <= f.read.text && q.fileName == f.name;
        }
      }
    }
  }

  /** Distinct ids give distinct offer ids. */
  lemma TaggedIdsDistinct(pairs: seq<(Offer, string)>, ids: seq<string>)
    requires |pairs| <= |ids|
    requires forall a, b :: 0 <= a < b < |ids| ==> ids[a] != ids[b]
    ensures forall a, b :: 0 <= a < b < |pairs| ==> Tagged(pairs, ids)[a].id != Tagged(pairs, ids)[b].id
  {
  }

  /** The progress of every per-file event is `(i / n) * k` for an index
      `i < n` and a factor `k` of 20, 50, 60 or 90. */
  predicate FileProgress(p: Percent, n: nat)
  {
    p.Ratio? && p.i < p.n == n && (p.k == 20 || p.k == 50 || p.k == 60 || p.k == 90)
  }

  /** Every event of `events` carries a per-file progress. */
  predicate AllFileProgress(events: seq<ProcessingStep>, n: nat)
  {
    forall j :: 0 <= j < |events| ==> FileProgress(events[j].progress, n)
  }

  lemma FileEventsProgress(o: FileOutcome, name: string, i: nat, n: nat)
    requires i < n
    ensures AllFileProgress(OutcomeEvents(o, name, i, n), n)
  {
  }

  lemma AllFileProgressAppend(a: seq<ProcessingStep>, b: seq<ProcessingStep>, n: nat)
    requires AllFileProgress(a, n) && AllFileProgress(b, n)
    ensures AllFileProgress(a + b, n)
  {
    forall j | 0 <= j < |a + b|
      ensures FileProgress((a + b)[j].progress, n)
    {
      if j < |a| {
        assert (a + b)[j] == a[j];
      } else {
        assert (a + b)[j] == b[j - |a|];
      }
    }
  }

  lemma {:induction false} TraceProgress(os: seq<FileOutcome>, names: seq<string>, k: nat)
    requires k <= |os| == |names|
    ensures AllFileProgress(TraceUpTo(os, names, k), |os|)
  {
    if k > 0 {
      TraceProgress(os, names, k - 1);
      FileEventsProgress(os[k - 1], names[k - 1], k - 1, |os|);
      AllFileProgressAppend(TraceUpTo(os, names, k - 1), OutcomeEvents(os[k - 1], names[k - 1], k - 1, |os|), |os|);
    }
  }

  /** The batch starts at 0 %, ends at 100 %, and stays below 90 % in between. */
  lemma BatchProgress(files: seq<FileInput>)
    ensures var events := BatchEvents(files);
            && events[0].progress == Whole(0)
            && events[|events| - 1].progress == Whole(100)
            && forall k :: 0 < k < |events| - 1 ==>
                 FileProgress(events[k].progress, |files|) && 0.0 <= events[k].progress.Value() < 90.0
  {
    TraceBatchProgress(OutcomesOf(files), NamesOf(files));
  }

  lemma TraceBatchProgress(os: seq<FileOutcome>, names: seq<string>)
    requires |os| == |names|
    ensures var events := BatchTrace(os, names);
            && events[0].progress == Whole(0)
            && events[|events| - 1].progress == Whole(100)
            && forall k :: 0 < k < |events| - 1 ==>
                 FileProgress(events[k].progress, |os|) && 0.0 <= events[k].progress.Value() < 90.0
  {
    var events := BatchTrace(os, names);
    var middle := TraceUpTo(os, names, |os|);
    TraceProgress(os, names, |os|);
    forall k | 0 < k < |events| - 1
      ensures FileProgress(events[k].progress, |os|) && 0.0 <= events[k].progress.Value() < 90.0
    {
      assert events[k] == middle[k - 1];
      var p := events[k].progress;
      assert FileProgress(p, |os|);
      RatioBelow(p.i, p.n, 90);
      RatioGrows(p.i, p.n, p.k, 90);
    }
  }

  lemma RatioGrows(i: nat, n: nat, k: nat, m: nat)
    requires i < n && k <= m
    ensures Ratio(i, n, k).Value() <= Ratio(i, n, m).Value()
  {
    var ratio := i as real / n as real;
    assert 0.0 <= ratio;
    assert ratio * k as real <= ratio * m as real;
  }

  // ================================================================ the hook's progress state

  /** The state `useVercelAI` shows while a batch runs. */
  datatype ProgressState = ProgressState(
    isProcessing: bool,
    currentStep: StepKind,
    progress: Percent,
    currentFile: string,
    totalOffers: nat,
    processedFiles: nat,
    error: Option<string>)

  /** The state set when a batch starts. */
  const InitialState: ProgressState := ProgressState(true, Initializing, Whole(0), "", 0, 0, None)

  /** `step.fileName` is truthy: present and not empty. */
  predicate Named(name: Option<string>)
  {
    name.Some? && name.value != ""
  }

  /** The state update applied on each progress event, as written. */
  function ApplyStep(prev: ProgressState, step: ProcessingStep): ProgressState
  {
    prev.(currentStep := step.kind,
          progress := step.progress,
          currentFile := if Named(step.fileName) then step.fileName.value else prev.currentFile,
          totalOffers := prev.totalOffers + step.offersFound.GetOr(0),
          processedFiles := if Named(step.fileName) then prev.processedFiles + 1 else prev.processedFiles)
  }

  /** The same update counting a file once, on the one event per file that
      reports its number of offers. */
  function ApplyStepCorrected(prev: ProgressState, step: ProcessingStep): (r: ProgressState)
    ensures r.(processedFiles := 0) == ApplyStep(prev, step).(processedFiles := 0)
    ensures r.processedFiles == prev.processedFiles + 1 <==> step.offersFound.Some?
    ensures r.processedFiles == prev.processedFiles <==> step.offersFound.None?
  {
    ApplyStep(prev, step).(processedFiles :=
      if step.offersFound.Some? then prev.processedFiles + 1 else prev.processedFiles)
  }

  /** As written, an event's step and percentage are shown, its offers
      added to the total, and a file is counted for every event that names
      one; the batch's flag and error are left alone. */
  lemma ApplyStepEffect(prev: ProgressState, step: ProcessingStep)
    ensures var r := ApplyStep(prev, step);
            && r.isProcessing == prev.isProcessing && r.error == prev.error
            && r.currentStep == step.kind && r.progress == step.progress
            && (step.offersFound.None? ==> r.totalOffers == prev.totalOffers)
            && (step.offersFound.Some? ==> r.totalOffers == prev.totalOffers + step.offersFound.value)
            && (Named(step.fileName) ==> r.currentFile == step.fileName.value && r.processedFiles == prev.processedFiles + 1)
            && (!Named(step.fileName) ==> r.currentFile == prev.currentFile && r.processedFiles == prev.processedFiles)
  {
  }

  function Replay(s: ProgressState, events: seq<ProcessingStep>): ProgressState
  {
    Seqs.FoldLeft(ApplyStep, s, events)
  }

  function ReplayCorrected(s: ProgressState, events: seq<ProcessingStep>): ProgressState
  {
    Seqs.FoldLeft(ApplyStepCorrected, s, events)
  }

  /** What one file's events do to the state. */
  lemma {:induction false} OutcomeEventsEffect(s: ProgressState, o: FileOutcome, name: string, i: nat, n: nat)
    requires i < n
    ensures var events := OutcomeEvents(o, name, i, n);
            var t := Replay(s, events);
            && 2 <= |events| <= 3
            && t.totalOffers == s.totalOffers + OfferCount(o)
            && t.processedFiles == s.processedFiles + (if name != "" then |events| else 0)
            && t.currentFile == (if name != "" then name else s.currentFile)
            && ReplayCorrected(s, events).totalOffers == t.totalOffers
            && ReplayCorrected(s, events).processedFiles == s.processedFiles + 1
  {
    var events := OutcomeEvents(o, name, i, n);
    if |events| == 2 {
      Seqs.FoldLeftTwo(ApplyStep, s, events[0], events[1]);
      Seqs.FoldLeftTwo(ApplyStepCorrected, s, events[0], events[1]);
    } else {
      Seqs.FoldLeftThree(ApplyStep, s, events[0], events[1], events[2]);
      Seqs.FoldLeftThree(ApplyStepCorrected, s, events[0], events[1], events[2]);
    }
  }

  lemma ContributionCount(f: FileInput)
    ensures |Contribution(f)| == OfferCount(Outcome(f))
  {
  }

  /** The number of offers returned is the number the files find. */
  lemma {:induction false} GatheredCount(os: seq<FileOutcome>, names: seq<string>, k: nat)
    requires k <= |os| == |names|
    ensures |GatheredUpTo(os, names, k)| == FoundUpTo(os, k)
  {
    if k > 0 {
      GatheredCount(os, names, k - 1);
    }
  }

  lemma {:induction false} TraceLength(os: seq<FileOutcome>, names: seq<string>, k: nat)
    requires k <= |os| == |names|
    ensures 2 * k <= |TraceUpTo(os, names, k)|
  {
    if k > 0 {
      TraceLength(os, names, k - 1);
      OutcomeEventsEffect(InitialState, os[k - 1], names[k - 1], k - 1, |os|);
    }
  }

  /** Replaying the first `k` files' events adds their offers to `totalOffers`. */
  lemma {:induction false} ReplayTraceTotals(os: seq<FileOutcome>, names: seq<string>, k: nat, s: ProgressState)
    requires k <= |os| == |names|
    ensures Replay(s, TraceUpTo(os, names, k)).totalOffers == s.totalOffers + FoundUpTo(os, k)
  {
    if k > 0 {
      var before := TraceUpTo(os, names, k - 1);
      var here := OutcomeEvents(os[k - 1], names[k - 1], k - 1, |os|);
      ReplayTraceTotals(os, names, k - 1, s);
      Seqs.FoldLeftAppend(ApplyStep, s, before, here);
      OutcomeEventsEffect(Replay(s, before), os[k - 1], names[k - 1], k - 1, |os|);
    }
  }

  /** So does the corrected update, which also counts `k` files. */
  lemma {:induction false} ReplayCorrectedTotals(os: seq<FileOutcome>, names: seq<string>, k: nat, s: ProgressState)
    requires k <= |os| == |names|
    ensures ReplayCorrected(s, TraceUpTo(os, names, k)).totalOffers == s.totalOffers + FoundUpTo(os, k)
    ensures ReplayCorrected(s, TraceUpTo(os, names, k)).processedFiles == s.processedFiles + k
  {
    if k > 0 {
      var before := TraceUpTo(os, names, k - 1);
      var here := OutcomeEvents(os[k - 1], names[k - 1], k - 1, |os|);
      ReplayCorrectedTotals(os, names, k - 1, s);
      Seqs.FoldLeftAppend(ApplyStepCorrected, s, before, here);
      OutcomeEventsEffect(ReplayCorrected(s, before), os[k - 1], names[k - 1], k - 1, |os|);
    }
  }

  /** As written, when every file has a name, `processedFiles` grows by the number of events. */
  lemma {:induction false} ReplayTraceCountsEvents(os: seq<FileOutcome>, names: seq<string>, k: nat, s: ProgressState)
    requires k <= |os| == |names|
    requires forall j :: 0 <= j < k ==> names[j] != ""
    ensures Replay(s, TraceUpTo(os, names, k)).processedFiles == s.processedFiles + |TraceUpTo(os, names, k)|
  {
    if k > 0 {
      var before := TraceUpTo(os, names, k - 1);
      var here := OutcomeEvents(os[k - 1], names[k - 1], k - 1, |os|);
      ReplayTraceCountsEvents(os, names, k - 1, s);
      Seqs.FoldLeftAppend(ApplyStep, s, before, here);
      OutcomeEventsEffect(Replay(s, before), os[k - 1], names[k - 1], k - 1, |os|);
    }
  }

  /** After the events of a file with a name, that name is the current file. */
  lemma ReplayTraceCurrentFile(os: seq<FileOutcome>, names: seq<string>, k: nat, s: ProgressState)
    requires 0 < k <= |os| == |names| && names[k - 1] != ""
    ensures Replay(s, TraceUpTo(os, names, k)).currentFile == names[k - 1]
  {
    var before := TraceUpTo(os, names, k - 1);
    var here := OutcomeEvents(os[k - 1], names[k - 1], k - 1, |os|);
    Seqs.FoldLeftAppend(ApplyStep, s, before, here);
    OutcomeEventsEffect(Replay(s, before), os[k - 1], names[k - 1], k - 1, |os|);
  }

  /** The whole batch as the hook sees it: the offers counted match the
      offers returned, the progress ends at 100 % on the completion step,
      and the current file is the last one named. */
  lemma HookTotals(files: seq<FileInput>)
    ensures var t := Replay(InitialState, BatchEvents(files));
            && t.totalOffers == |Contributed(files)|
            && t.progress == Whole(100)
            && t.currentStep == Finished(|Contributed(files)|)
            && (0 < |files| && files[|files| - 1].name != "" ==> t.currentFile == files[|files| - 1].name)
  {
    HookTraceTotals(OutcomesOf(files), NamesOf(files));
  }

  lemma HookTraceTotals(os: seq<FileOutcome>, names: seq<string>)
    requires |os| == |names|
    ensures var t := Replay(InitialState, BatchTrace(os, names));
            && t.totalOffers == |GatheredUpTo(os, names, |os|)|
            && t.progress == Whole(100)
            && t.currentStep == Finished(|GatheredUpTo(os, names, |os|)|)
            && (0 < |os| && names[|os| - 1] != "" ==> t.currentFile == names[|os| - 1])
  {
    var afterStart := ApplyStep(InitialState, StartEvent);
    var middle := Replay(afterStart, TraceUpTo(os, names, |os|));
    GatheredCount(os, names, |os|);
    ReplayTraceTotals(os, names, |os|, afterStart);
    if 0 < |os| && names[|os| - 1] != "" {
      ReplayTraceCurrentFile(os, names, |os|, afterStart);
    }
    ReplayThroughBatch(ApplyStep, os, names);
    assert Replay(InitialState, BatchTrace(os, names)) == ApplyStep(middle, FinishEvent(|GatheredUpTo(os, names, |os|)|));
  }

  /** With the corrected update, `processedFiles` ends at the number of files. */
  lemma HookCountsFilesCorrected(files: seq<FileInput>)
    ensures ReplayCorrected(InitialState, BatchEvents(files)).processedFiles == |files|
    ensures ReplayCorrected(InitialState, BatchEvents(files)).totalOffers == |Contributed(files)|
  {
    HookTraceCountsFiles(OutcomesOf(files), NamesOf(files));
  }

  lemma HookTraceCountsFiles(os: seq<FileOutcome>, names: seq<string>)
    requires |os| == |names|
    ensures ReplayCorrected(InitialState, BatchTrace(os, names)).processedFiles == |os|
    ensures ReplayCorrected(InitialState, BatchTrace(os, names)).totalOffers == |GatheredUpTo(os, names, |os|)|
  {
    var afterStart := ApplyStepCorrected(InitialState, StartEvent);
    var middle := ReplayCorrected(afterStart, TraceUpTo(os, names, |os|));
    GatheredCount(os, names, |os|);
    ReplayCorrectedTotals(os, names, |os|, afterStart);
    ReplayThroughBatch(ApplyStepCorrected, os, names);
    assert ReplayCorrected(InitialState, BatchTrace(os, names))
        == ApplyStepCorrected(middle, FinishEvent(|GatheredUpTo(os, names, |os|)|));
  }

  /** As written, `processedFiles` ends at the number of events that name a
      file, two or three per file: more than the number of files as soon as
      there is one file with a name. */
  lemma HookCountsEventsAsWritten(files: seq<FileInput>)
    requires forall j :: 0 <= j < |files| ==> files[j].name != ""
    ensures Replay(InitialState, BatchEvents(files)).processedFiles == |EventsUpTo(files, |files|)|
    ensures Replay(InitialState, BatchEvents(files)).processedFiles >= 2 * |files|
    ensures |files| > 0 ==> Replay(InitialState, BatchEvents(files)).processedFiles > |files|
  {
    HookTraceCountsEvents(OutcomesOf(files), NamesOf(files));
  }

  lemma HookTraceCountsEvents(os: seq<FileOutcome>, names: seq<string>)
    requires |os| == |names|
    requires forall j :: 0 <= j < |names| ==> names[j] != ""
    ensures Replay(InitialState, BatchTrace(os, names)).processedFiles == |TraceUpTo(os, names, |os|)|
    ensures Replay(InitialState, BatchTrace(os, names)).processedFiles >= 2 * |os|
  {
    var afterStart := ApplyStep(InitialState, StartEvent);
    var middle := Replay(afterStart, TraceUpTo(os, names, |os|));
    ReplayTraceCountsEvents(os, names, |os|, afterStart);
    TraceLength(os, names, |os|);
    ReplayThroughBatch(ApplyStep, os, names);
    assert Replay(InitialState, BatchTrace(os, names)) == ApplyStep(middle, FinishEvent(|GatheredUpTo(os, names, |os|)|));
  }

  /** Replaying a batch is replaying its start, its files' events and its
      completion, none of which names a file. */
  lemma ReplayThroughBatch(step: (ProgressState, ProcessingStep) -> ProgressState, os: seq<FileOutcome>, names: seq<string>)
    requires |os| == |names|
    ensures Seqs.FoldLeft(step, InitialState, BatchTrace(os, names))
            == step(Seqs.FoldLeft(step, step(InitialState, StartEvent), TraceUpTo(os, names, |os|)),
                    FinishEvent(|GatheredUpTo(os, names, |os|)|))
  {
    var middle := TraceUpTo(os, names, |os|);
    var finish := FinishEvent(|GatheredUpTo(os, names, |os|)|);
    assert BatchTrace(os, names) == [StartEvent] + (middle + [finish]);
    Seqs.FoldLeftAppend(step, InitialState, [StartEvent], middle + [finish]);
    Seqs.FoldLeftAppend(step, step(InitialState, StartEvent), middle, [finish]);
    assert [StartEvent][1..] == [];
    assert [finish][1..] == [];
  }
}
