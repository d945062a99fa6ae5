/**
  What a response comes to, told from its history alone: the marks that events leave, the
  metadata that is kept, and which reason decides the status.
 */
module Outcome {
  import opened Bytes
  import opened Framing
  import opened Response

  // ------------------------------------------------------------- events and marks

  predicate Closed(t: seq<Event>) {
    RefusedByGoaway in t || exists i :: 0 <= i < |t| && t[i].StreamClosed?
  }

  predicate Reset(t: seq<Event>) {
    exists i :: 0 <= i < |t| && t[i].RstStream?
  }

  /** The connection broke before the deadline had passed. */
  predicate Broke(t: seq<Event>) {
    t != [] && (Broke(t[..|t| - 1]) || (t[|t| - 1] == ConnectionBroke && DeadlinePassed !in t[..|t| - 1]))
  }

  lemma StreamStep(cfg: Config, r: Record, e: Event)
    requires Healthy(r)
    ensures var s, s' := r.stream, Apply(cfg, r, e).stream;
            && s'.timedOut == (s.timedOut || e == DeadlinePassed)
            && s'.closed == (s.closed || e == RefusedByGoaway || e.StreamClosed?)
            && s'.localReset == (s.localReset || e == LocalReset)
            && s'.broken == (s.broken || (e == ConnectionBroke && !s.timedOut))
  {
    if e.HeaderField? || e.HeadersEnd? || e.Data? {
      StreamPartKept(cfg, r, e);
    }
  }

  /** Deadline, close, own reset and broken connection are marked exactly if they happened. */
  lemma {:induction false} StreamTracksHistory(cfg: Config, t: seq<Event>)
    ensures var s := Run(cfg, t).stream;
            && (s.timedOut <==> DeadlinePassed in t)
            && (s.closed <==> Closed(t))
            && (s.localReset <==> LocalReset in t)
            && (s.broken <==> Broke(t))
  {
    if t != [] {
      var init, e := t[..|t| - 1], t[|t| - 1];
      StreamTracksHistory(cfg, init);
      StreamStep(cfg, Run(cfg, init), e);
      assert t == init + [e];
      ClosedStep(init, e);
    }
  }

  lemma ClosedStep(t: seq<Event>, e: Event)
    ensures Closed(t + [e]) <==> Closed(t) || e == RefusedByGoaway || e.StreamClosed?
  {
    if i :| 0 <= i < |t| && t[i].StreamClosed? {
      assert (t + [e])[i].StreamClosed?;
    }
    if e.StreamClosed? {
      assert (t + [e])[|t|].StreamClosed?;
    }
  }

  // ---------------------------------------------------------------- content type

  predicate TypeField(e: Event) {
    e.HeaderField? && e.kind == ContentType
  }

  predicate Typed(t: seq<Event>) {
    t != [] && (Typed(t[..|t| - 1]) || TypeField(t[|t| - 1]))
  }

  /** Some content-type was not gRPC, or the response HEADERS ended without one although they
      were not a status alone. */
  predicate BadType(t: seq<Event>) {
    && t != []
    && var init, e := t[..|t| - 1], t[|t| - 1];
    || BadType(init)
    || (TypeField(e) && !ValidContentType(e.value))
    || (e.HeadersEnd? && e.cat == Initial && !Typed(init) && !(e.endStream && StatusValues(init) != []))
  }

  lemma TypeStep(cfg: Config, r: Record, e: Event)
    requires Healthy(r)
    ensures var h, h' := r.head, Apply(cfg, r, e).head;
            && h'.contentTypeSeen == (h.contentTypeSeen || TypeField(e))
            && h'.invalidContentType == (h.invalidContentType || (TypeField(e) && !ValidContentType(e.value))
                 || (e.HeadersEnd? && e.cat == Initial && !h.contentTypeSeen && !(e.endStream && r.status.seen)))
  {
  }

  lemma SeenStep(cfg: Config, r: Record, e: Event)
    requires Healthy(r)
    ensures Apply(cfg, r, e).status.seen == (r.status.seen || (e.HeaderField? && e.kind == GrpcStatus))
  {
    if e != UserCancel {
      StatusStep(cfg, r, e);
    }
  }

  /** The content-type verdict is exactly what the history says. */
  lemma {:induction false} TypeTracksHistory(cfg: Config, t: seq<Event>)
    ensures var r := Run(cfg, t);
            && (r.head.contentTypeSeen <==> Typed(t)) && (r.head.invalidContentType <==> BadType(t))
            && (r.status.seen <==> StatusValues(t) != [])
  {
    if t != [] {
      var init, e := t[..|t| - 1], t[|t| - 1];
      TypeTracksHistory(cfg, init);
      TypeStep(cfg, Run(cfg, init), e);
      SeenStep(cfg, Run(cfg, init), e);
      StatusValuesStep(t);
    }
  }

  // -------------------------------------------------------------------- metadata

  /** A field that belongs to the metadata; `late` ones are trailing whatever follows. */
  datatype Kept = Kept(name: string, value: string, late: bool)

  predicate IsKept(e: Event) {
    e.HeaderField? && e.kind.Stored() && e.kind != GrpcStatus && e.kind != GrpcMessage
  }

  function KeptFields(t: seq<Event>): seq<Kept> {
    if t == [] then []
    else
      var init, e := KeptFields(t[..|t| - 1]), t[|t| - 1];
      if IsKept(e) then init + [Kept(e.name, e.value, e.cat != Initial || e.kind == GrpcDetails)] else init
  }

  function KeptBytes(fs: seq<Kept>): nat {
    if fs == [] then 0 else KeptBytes(fs[..|fs| - 1]) + |fs[|fs| - 1].name| + |fs[|fs| - 1].value|
  }

  predicate Affordable(cfg: Config, fs: seq<Kept>) {
    |fs| <= MAX_METADATA_ENTRIES && KeptBytes(fs) <= cfg.maxMetadataBytes
  }

  /** The entries are the longest front part of the fields that both limits allow, under their
      own names and values. */
  ghost predicate Faithful(cfg: Config, m: Metadata, fs: seq<Kept>) {
    && |m.entries| <= |fs| && m.count == |m.entries| && Affordable(cfg, fs[..|m.entries|])
    && m.bytes == KeptBytes(fs[..|m.entries|])
    && (m.tooLarge <==> |m.entries| < |fs|)
    && (m.tooLarge ==> !Affordable(cfg, fs[..|m.entries| + 1]))
    && (forall i :: 0 <= i < |m.entries| ==> m.entries[i].key == fs[i].name && m.entries[i].value == fs[i].value)
  }

  lemma AddFaithful(cfg: Config, m: Metadata, fs: seq<Kept>, f: Kept, trailing: bool)
    requires Faithful(cfg, m, fs)
    ensures Faithful(cfg, AddEntry(m, cfg.maxMetadataBytes, f.name, f.value, trailing), fs + [f])
  {
    var all, n := fs + [f], |m.entries|;
    assert all[..n] == fs[..n];
    if m.tooLarge {
      assert all[..n + 1] == fs[..n + 1];
    } else {
      assert fs[..n] == fs && all[..n + 1] == all && all[..|all| - 1] == fs;
    }
  }

  lemma MarkFaithful(cfg: Config, m: Metadata, fs: seq<Kept>)
    requires Faithful(cfg, m, fs)
    ensures Faithful(cfg, m.(entries := AllTrailing(m.entries)), fs)
  {
  }

  /** What an event does to the metadata. */
  lemma MetaStep(cfg: Config, r: Record, e: Event)
    requires Healthy(r)
    ensures var m, m' := r.meta, Apply(cfg, r, e).meta;
            if IsKept(e) then
              m' == AddEntry(m, cfg.maxMetadataBytes, e.name, e.value,
                             e.cat != Initial || e.kind == GrpcDetails || r.status.code >= 0)
            else m' == m || (e.HeaderField? && e.kind == GrpcStatus && e.cat == Initial
                             && m' == m.(entries := AllTrailing(m.entries)))
  {
  }

  /** Every field of the metadata is stored under its own name and value and in its place, as
      long as both limits allow, and the overflow is raised exactly if they do not. */
  lemma {:induction false} MetadataTracksHistory(cfg: Config, t: seq<Event>)
    ensures Faithful(cfg, Run(cfg, t).meta, KeptFields(t))
  {
    if t != [] {
      var init, e := t[..|t| - 1], t[|t| - 1];
      var r, fs := Run(cfg, init), KeptFields(init);
      MetadataTracksHistory(cfg, init);
      MetaStep(cfg, r, e);
      if IsKept(e) {
        AddFaithful(cfg, r.meta, fs, Kept(e.name, e.value, e.cat != Initial || e.kind == GrpcDetails),
                    e.cat != Initial || e.kind == GrpcDetails || r.status.code >= 0);
      } else {
        MarkFaithful(cfg, r.meta, fs);
      }
    }
  }

  lemma {:induction false} KeptBytesGrow(fs: seq<Kept>, n: nat)
    requires n <= |fs|
    ensures KeptBytes(fs[..n]) <= KeptBytes(fs)
  {
    if n < |fs| {
      KeptBytesGrow(fs[..|fs| - 1], n);
      assert fs[..|fs| - 1][..n] == fs[..n];
    } else {
      assert fs[..n] == fs;
    }
  }

  lemma OverflowExactly(cfg: Config, t: seq<Event>)
    ensures Run(cfg, t).meta.tooLarge <==> !Affordable(cfg, KeptFields(t))
  {
    var m, fs := Run(cfg, t).meta, KeptFields(t);
    MetadataTracksHistory(cfg, t);
    if m.tooLarge {
      KeptBytesGrow(fs, |m.entries| + 1);
    } else {
      assert fs[..|m.entries|] == fs;
    }
  }

  /** Without a grpc-status an entry is trailing exactly if its field came late. */
  lemma {:induction false} TrailingTracksHistory(cfg: Config, t: seq<Event>)
    requires StatusValues(t) == [] && UserCancel !in t
    ensures var es := Run(cfg, t).meta.entries;
            |es| <= |KeptFields(t)| && forall i :: 0 <= i < |es| ==> es[i].trailing == KeptFields(t)[i].late
  {
    if t != [] {
      var init, e := t[..|t| - 1], t[|t| - 1];
      StatusValuesStep(t);
      assert UserCancel !in init;
      TrailingTracksHistory(cfg, init);
      SeenTracksHistory(cfg, init);
      MetadataTracksHistory(cfg, init);
      MetaStep(cfg, Run(cfg, init), e);
    }
  }

  // ---------------------------------------------------------------------- status

  /** The stream ended inside a message, and neither a reset nor a lost connection explains it. */
  predicate CutShort(cfg: Config, t: seq<Event>, unary: bool) {
    && Run(cfg, t).dec.MidMessage() && !Reset(t) && LocalReset !in t
    && (if unary then Closed(t) else !Broke(t))
  }

  lemma CutShortIsMalformed(cfg: Config, t: seq<Event>, unary: bool)
    ensures var r := Run(cfg, t);
            !r.dec.flags.tooLarge && !r.dec.flags.compressed ==>
              Ended(r, unary).dec.flags.malformed == (r.dec.flags.malformed || CutShort(cfg, t, unary))
  {
    StreamTracksHistory(cfg, t);
    RefusalTracksHistory(cfg, t);
  }

  /** OK, in terms of the history and of the decoder's own marks: no response that is cut inside
      a message, no bad content type, no overflow of the metadata and no passed deadline ends OK. */
  lemma OkFromHistory(cfg: Config, t: seq<Event>, unary: bool, cancelled: bool)
    requires CancelIsLast(t)
    ensures Status(Ended(Run(cfg, t), unary), cancelled) == OK <==>
            && StatusValues(t) == ["0"] && !BodyAfterStatus(t) && !UnfinishedInitialStatus(t)
            && UserCancel !in t && !cancelled && DeadlinePassed !in t
            && !BadType(t) && Affordable(cfg, KeptFields(t))
            && !Run(cfg, t).dec.flags.Any() && !CutShort(cfg, t, unary)
  {
    OkExactly(cfg, t, unary, cancelled);
    StreamTracksHistory(cfg, t);
    TypeTracksHistory(cfg, t);
    OverflowExactly(cfg, t);
    CutShortIsMalformed(cfg, t, unary);
    EndedSpoiled(Run(cfg, t), unary);
  }

  lemma EndedSpoiled(r: Record, unary: bool)
    ensures var e := Ended(r, unary);
            && (Spoiled(e) <==> r.stream.timedOut || r.head.invalidContentType || r.meta.tooLarge || e.dec.flags.Any())
            && e.dec.flags == r.dec.flags.(malformed := e.dec.flags.malformed)
            && (r.dec.flags.malformed ==> e.dec.flags.malformed)
  {
  }

  /** A push promise is never OK. */
  lemma {:induction false} PushIsMalformed(cfg: Config, t: seq<Event>, k: nat)
    requires k < |t| && t[k] == PushPromise
    ensures Run(cfg, t).dec.flags.malformed
  {
    RunOnlyWorse(cfg, t, k + 1);
    assert t[..k + 1][..k] == t[..k];
  }

  /** A passed deadline outranks everything, and a cancel everything else. */
  lemma DeadlineThenCancel(cfg: Config, t: seq<Event>, unary: bool, cancelled: bool)
    ensures var status := Status(Ended(Run(cfg, t), unary), cancelled);
            && (DeadlinePassed in t ==> status == DEADLINE_EXCEEDED)
            && (DeadlinePassed !in t && cancelled ==> status == CANCELLED)
  {
    StreamTracksHistory(cfg, t);
  }

  /** Nothing of higher rank than the answer's own content: no deadline, no cancel. */
  predicate Undisturbed(t: seq<Event>) {
    DeadlinePassed !in t && UserCancel !in t
  }

  predicate InvalidStatus(t: seq<Event>) {
    |StatusValues(t)| > 1 || !Readable(StatusValues(t)) || BodyAfterStatus(t) || UnfinishedInitialStatus(t)
  }

  /** The status gRPC prescribes for an answer that carries none, by its HTTP status. */
  const HTTP_STATUS: map<int, int> := map[
    400 := 13, 401 := 16, 403 := 7, 404 := 12, 429 := 14, 502 := 14, 503 := 14, 504 := 14]

  /** An unusable grpc-status makes the answer UNKNOWN; without one, an HTTP status other than
      200 decides, and no answer at all is UNAVAILABLE. */
  lemma StatusOrHttp(cfg: Config, t: seq<Event>, unary: bool)
    requires Undisturbed(t)
    ensures var status := Status(Ended(Run(cfg, t), unary), false);
            && (InvalidStatus(t) ==> status == 2)
            && (!InvalidStatus(t) && StatusValues(t) == [] && LastHttp(t) != 200 ==>
                  status == if LastHttp(t) in HTTP_STATUS then HTTP_STATUS[LastHttp(t)]
                            else if LastHttp(t) < 0 then 14 else 2)
  {
    StreamTracksHistory(cfg, t);
    SeenTracksHistory(cfg, t);
    InvalidTracksHistory(cfg, t);
    EvidenceTracksHistory(cfg, t);
    EndedKeeps(Run(cfg, t), unary);
    HttpTable(LastHttp(t));
  }

  lemma HttpTable(code: int)
    ensures StatusFromHttp(code) == if code in HTTP_STATUS then HTTP_STATUS[code] else if code < 0 then 14 else 2
  {
  }

  lemma EndedKeeps(r: Record, unary: bool)
    ensures var e := Ended(r, unary);
            e.stream == r.stream && e.status == r.status && e.head == r.head && e.meta == r.meta
  {
  }

  /** An answer that is neither late, cancelled, unusable in its status nor foreign HTTP. */
  predicate Answered(t: seq<Event>) {
    Undisturbed(t) && !InvalidStatus(t) && (StatusValues(t) != [] || LastHttp(t) == 200)
  }

  /** After that the content decides: first its type, then its size, then its form.  An answer
      that ends inside a message is INTERNAL unless one of the former applies. */
  lemma ContentFailures(cfg: Config, t: seq<Event>, unary: bool)
    requires Answered(t)
    ensures var r, status := Run(cfg, t), Status(Ended(Run(cfg, t), unary), false);
            var big := r.dec.flags.tooLarge || r.dec.flags.queueLimit || !Affordable(cfg, KeptFields(t));
            && (BadType(t) ==> status == 2)
            && (!BadType(t) && big ==> status == 8)
            && (!BadType(t) && !big && (r.dec.flags.Any() || CutShort(cfg, t, unary)) ==> status == 13)
  {
    AnsweredRecord(cfg, t);
    TypeTracksHistory(cfg, t);
    OverflowExactly(cfg, t);
    CutShortIsMalformed(cfg, t, unary);
    EndedKeeps(Run(cfg, t), unary);
    EndedSpoiled(Run(cfg, t), unary);
  }

  lemma AnsweredRecord(cfg: Config, t: seq<Event>)
    requires Answered(t)
    ensures var r := Run(cfg, t);
            !r.stream.timedOut && !r.status.invalid && (r.status.code >= 0 || r.head.http == 200)
  {
    StreamTracksHistory(cfg, t);
    SeenTracksHistory(cfg, t);
    InvalidTracksHistory(cfg, t);
    EvidenceTracksHistory(cfg, t);
  }

  /** The content of the answer is sound. */
  predicate Sound(cfg: Config, t: seq<Event>, unary: bool) {
    !BadType(t) && Affordable(cfg, KeptFields(t)) && !Run(cfg, t).dec.flags.Any() && !CutShort(cfg, t, unary)
  }

  /** A sound answer has the status its one grpc-status field reads as. */
  lemma WireStatusCounts(cfg: Config, t: seq<Event>, unary: bool)
    requires Answered(t) && Sound(cfg, t, unary) && StatusValues(t) != []
    ensures Status(Ended(Run(cfg, t), unary), false) == StatusValue(StatusValues(t)[0])
  {
    SeenTracksHistory(cfg, t);
    SoundRecord(cfg, t, unary);
  }

  lemma SoundRecord(cfg: Config, t: seq<Event>, unary: bool)
    requires Answered(t) && Sound(cfg, t, unary)
    ensures var r := Ended(Run(cfg, t), unary);
            && !r.stream.timedOut && !r.status.invalid && (r.status.code >= 0 || r.head.http == 200)
            && !r.head.invalidContentType && !r.meta.tooLarge && !r.dec.flags.Any()
            && r.stream == Run(cfg, t).stream && r.status == Run(cfg, t).status && r.head == Run(cfg, t).head
  {
    AnsweredRecord(cfg, t);
    TypeTracksHistory(cfg, t);
    OverflowExactly(cfg, t);
    CutShortIsMalformed(cfg, t, unary);
    EndedKeeps(Run(cfg, t), unary);
    EndedSpoiled(Run(cfg, t), unary);
  }

  /** The status gRPC prescribes for an RST_STREAM error code; other codes are UNKNOWN. */
  const RESET_STATUS: map<nat, int> := map[
    0 := 13, 1 := 13, 2 := 13, 3 := 13, 4 := 13, 5 := 13, 6 := 13, 7 := 14, 8 := 1, 9 := 13, 10 := 13, 11 := 8,
    12 := 7, 13 := 13]

  /** Without a grpc-status, a refused stream and a broken connection are UNAVAILABLE and a
      reset has the status of its code. */
  lemma StatusOfTheStream(cfg: Config, t: seq<Event>, unary: bool)
    requires Answered(t) && Sound(cfg, t, unary) && StatusValues(t) == []
    ensures var status := Status(Ended(Run(cfg, t), unary), false);
            && (RefusedByGoaway in t ==> status == 14)
            && (RefusedByGoaway !in t && Reset(t) ==>
                  status == if LastCode(t) in RESET_STATUS then RESET_STATUS[LastCode(t)] else 2)
            && (RefusedByGoaway !in t && !Reset(t) && Broke(t) ==> status == 14)
  {
    SeenTracksHistory(cfg, t);
    StreamTracksHistory(cfg, t);
    RefusalTracksHistory(cfg, t);
    SoundRecord(cfg, t, unary);
    ResetTable(LastCode(t));
  }

  lemma ResetTable(code: nat)
    ensures ResetStatus(code) == if code in RESET_STATUS then RESET_STATUS[code] else 2
  {
  }

  /** The stream ended with a header block: the response HEADERS last ended it, or trailers did. */
  predicate EndedByHeaders(t: seq<Event>) {
    InitialEndsStream(t) || HeadersEnd(Later, true) in t
  }

  predicate InitialEndsStream(t: seq<Event>) {
    && t != []
    && var e := t[|t| - 1];
    if e.HeadersEnd? && e.cat == Initial then e.endStream else InitialEndsStream(t[..|t| - 1])
  }

  lemma HeadStep(cfg: Config, r: Record, e: Event)
    requires Healthy(r)
    ensures var h, h' := r.head, Apply(cfg, r, e).head;
            && h'.endStream == (if e.HeadersEnd? && e.cat == Initial then e.endStream else h.endStream)
            && h'.trailersSeen == (h.trailersSeen || e == HeadersEnd(Later, true))
  {
  }

  lemma {:induction false} HeadTracksHistory(cfg: Config, t: seq<Event>)
    ensures var h := Run(cfg, t).head;
            && (h.endStream <==> InitialEndsStream(t))
            && (h.trailersSeen <==> HeadersEnd(Later, true) in t)
  {
    if t != [] {
      var init, e := t[..|t| - 1], t[|t| - 1];
      HeadTracksHistory(cfg, init);
      HeadStep(cfg, Run(cfg, init), e);
      assert t == init + [e];
    }
  }

  /** A sound answer without a grpc-status and without accident is INTERNAL if its stream closed
      cleanly on DATA, so that trailers are missing, and UNKNOWN otherwise. */
  lemma StatusMissing(cfg: Config, t: seq<Event>, unary: bool)
    requires Answered(t) && Sound(cfg, t, unary) && StatusValues(t) == []
    requires RefusedByGoaway !in t && !Reset(t) && !Broke(t)
    ensures Status(Ended(Run(cfg, t), unary), false) ==
            if Closed(t) && LastCode(t) == H2_NO_ERROR && !EndedByHeaders(t) then 13 else 2
  {
    SeenTracksHistory(cfg, t);
    StreamTracksHistory(cfg, t);
    RefusalTracksHistory(cfg, t);
    HeadTracksHistory(cfg, t);
    SoundRecord(cfg, t, unary);
  }
}
