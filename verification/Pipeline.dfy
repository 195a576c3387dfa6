/** Sending invoices: identities minted one chunk at a time, results matched by uid. */
module Pipeline {
  import opened Results
  import opened TaxId
  import opened CounterFile
  import SerialCounter

  const MAX_PACKETS := 1000

  /** An invoice as the pipeline sees it; `content` stands for everything else it carries. */
  datatype Invoice = Invoice(taxid: string, inno: string, indatim: int, content: string)

  datatype Packet = Packet(uid: string, invoice: Invoice)

  datatype SubmitResult = SubmitResult(uid: string, reference: string)

  datatype Submission = Submission(uid: string, taxId: string, result: Option<SubmitResult>)

  datatype Fault = InvalidInvoice | NoSerial(counter: CounterError) | NoTaxId(why: TaxIdError) | SendingFailed

  /** The pipeline's surroundings: the rules, the uid drawn for the i-th invoice, and what the
      service answers to the chunk starting at a place, if it answers. */
  datatype Config = Config(
    memory: string, validate: bool, valid: Invoice -> bool,
    uid: nat -> string, respond: (nat, seq<Packet>) -> Option<seq<SubmitResult>>)

  datatype Event = Drew(place: nat, serial: nat) | Answered(start: nat)

  // ---- Minting identities ----------------------------------------------------------------------

  predicate IsBlank(invoice: Invoice)
  {
    invoice.taxid == ""
  }

  /** How far a run has come: the counter's file, the packets of the chunk being built, the
      results so far, what has happened, and the exception raised, if any. */
  datatype Session = Session(
    file: Contents, packets: seq<Packet>, results: seq<Submission>, events: seq<Event>, fault: Option<Fault>)

  function Failed(s: Session, fault: Fault): Session
  {
    s.(fault := Some(fault))
  }

  function Identified(cfg: Config, invoice: Invoice, serial: nat): Result<Invoice, TaxIdError>
  {
    match GenerateTaxId(cfg.memory, serial, invoice.indatim as real / 1000.0)
    case Err(why) => Err(why)
    case Ok(id) =>
      match InvoiceSerialHex(serial)
      case Err(why) => Err(why)
      case Ok(inno) => Ok(invoice.(taxid := id, inno := inno))
  }

  /** One turn of the building loop, for the invoice at place `i`. */
  function Build(cfg: Config, invoice: Invoice, i: nat, s: Session): Session
  {
    if s.fault.Some? then s
    else if cfg.validate && !cfg.valid(invoice) then Failed(s, InvalidInvoice)
    else if !IsBlank(invoice) then s.(packets := s.packets + [Packet(cfg.uid(i), invoice)])
    else
      match NextSerial(s.file)
      case Err(why) => Failed(s, NoSerial(why))
      case Ok(serial) =>
        var drawn := s.(file := Number(serial), events := s.events + [Drew(i, serial)]);
        match Identified(cfg, invoice, serial)
        case Err(why) => Failed(drawn, NoTaxId(why))
        case Ok(complete) => drawn.(packets := s.packets + [Packet(cfg.uid(i), complete)])
  }

  function BuildTo(cfg: Config, invoices: seq<Invoice>, start: nat, stop: nat, s: Session): Session
    requires start <= stop <= |invoices|
    decreases stop - start
  {
    if start == stop then s
    else Build(cfg, invoices[stop - 1], stop - 1, BuildTo(cfg, invoices, start, stop - 1, s))
  }

  // ---- Matching results -------------------------------------------------------------------------

  /** The last result given for a uid. */
  function ResultFor(answers: seq<SubmitResult>, uid: string): Option<SubmitResult>
  {
    if answers == [] then None
    else if answers[|answers| - 1].uid == uid then Some(answers[|answers| - 1])
    else ResultFor(answers[..|answers| - 1], uid)
  }

  function Matched(packets: seq<Packet>, answers: seq<SubmitResult>): (r: seq<Submission>)
    ensures |r| == |packets|
    ensures forall i | 0 <= i < |packets| ::
      r[i] == Submission(packets[i].uid, packets[i].invoice.taxid, ResultFor(answers, packets[i].uid))
  {
    seq(|packets|, i requires 0 <= i < |packets| =>
      Submission(packets[i].uid, packets[i].invoice.taxid, ResultFor(answers, packets[i].uid)))
  }

  // ---- Chunks ------------------------------------------------------------------------------------

  function ChunkEnd(invoices: seq<Invoice>, start: nat): nat
  {
    if start + MAX_PACKETS < |invoices| then start + MAX_PACKETS else |invoices|
  }

  /** Sending the packets built for the chunk that starts at `start`. */
  function Send(cfg: Config, start: nat, s: Session): Session
  {
    if s.fault.Some? then s
    else
      match cfg.respond(start, s.packets)
      case None => Failed(s, SendingFailed)
      case Some(answers) =>
        s.(packets := [], results := s.results + Matched(s.packets, answers), events := s.events + [Answered(start)])
  }

  function SubmitChunk(cfg: Config, invoices: seq<Invoice>, start: nat, s: Session): Session
    requires start < |invoices|
  {
    Send(cfg, start, BuildTo(cfg, invoices, start, ChunkEnd(invoices, start), s))
  }

  function SubmitFrom(cfg: Config, invoices: seq<Invoice>, start: nat, s: Session): Session
    decreases |invoices| - start
  {
    if start >= |invoices| || s.fault.Some? then s
    else SubmitFrom(cfg, invoices, start + MAX_PACKETS, SubmitChunk(cfg, invoices, start, s))
  }

  function Begin(file: Contents): Session
  {
    Session(file, [], [], [], None)
  }

  /** A whole submission. */
  function Submitted(cfg: Config, invoices: seq<Invoice>, file: Contents): Session
  {
    SubmitFrom(cfg, invoices, 0, Begin(file))
  }

  // ---- The object -----------------------------------------------------------------------------------

  class InvoicePipeline {
    const cfg: Config
    const counter: SerialCounter.MonotonicSerialCounter
    /** What the submission at hand has done so far. */
    ghost var events: seq<Event>

    constructor (cfg: Config, counter: SerialCounter.MonotonicSerialCounter)
      ensures this.cfg == cfg && this.counter == counter && events == []
    {
      this.cfg, this.counter, this.events := cfg, counter, [];
    }

    /** The session so far, from the point of view of the object. */
    ghost function Now(packets: seq<Packet>, results: seq<Submission>, fault: Option<Fault>): Session
      reads this, counter
    {
      Session(Visible(counter.file), packets, results, events, fault)
    }

    method Submit(invoices: seq<Invoice>) returns (r: Result<seq<Submission>, Fault>)
      modifies this, counter
      ensures var end := Submitted(cfg, invoices, old(Visible(counter.file)));
        && r == (if end.fault.Some? then Err(end.fault.value) else Ok(end.results))
        && Visible(counter.file) == end.file && events == end.events
    {
      events := [];
      if invoices == [] {
        return Ok([]);
      }
      var results: seq<Submission> := [];
      var start := 0;
      ghost var end := Submitted(cfg, invoices, Visible(counter.file));
      while start < |invoices|
        invariant SubmitFrom(cfg, invoices, start, Now([], results, None)) == end
        decreases |invoices| - start
      {
        var batch := SubmitBatch(invoices, start, results);
        if batch.Err? {
          return Err(batch.error);
        }
        results := results + batch.value;
        start := start + MAX_PACKETS;
      }
      return Ok(results);
    }

    method SubmitBatch(invoices: seq<Invoice>, start: nat, ghost before: seq<Submission>)
      returns (r: Result<seq<Submission>, Fault>)
      requires start < |invoices|
      modifies this, counter
      ensures var after := SubmitChunk(cfg, invoices, start, old(Now([], before, None)));
        && r.Err? == after.fault.Some?
        && (r.Ok? ==> after == Now([], before + r.value, None))
        && (r.Err? ==> after.fault == Some(r.error) && Visible(counter.file) == after.file && events == after.events)
    {
      var built := BuildPackets(invoices, start, before);
      if built.Err? {
        return Err(built.error);
      }
      var packets := built.value;
      var response := cfg.respond(start, packets);
      if response.None? {
        return Err(SendingFailed);
      }
      var byUid: map<string, SubmitResult> := map[];
      for i := 0 to |response.value|
        invariant forall uid :: uid in byUid <==> ResultFor(response.value[..i], uid).Some?
        invariant forall uid | uid in byUid :: ResultFor(response.value[..i], uid) == Some(byUid[uid])
      {
        assert response.value[..i + 1][..i] == response.value[..i];
        byUid := byUid[response.value[i].uid := response.value[i]];
      }
      assert response.value[..|response.value|] == response.value;
      var submissions: seq<Submission> := [];
      for i := 0 to |packets|
        invariant submissions == Matched(packets, response.value)[..i]
      {
        var uid := packets[i].uid;
        submissions := submissions
          + [Submission(uid, packets[i].invoice.taxid, if uid in byUid then Some(byUid[uid]) else None)];
      }
      events := events + [Answered(start)];
      return Ok(submissions);
    }

    method BuildPackets(invoices: seq<Invoice>, start: nat, ghost before: seq<Submission>)
      returns (r: Result<seq<Packet>, Fault>)
      requires start < |invoices|
      modifies this, counter
      ensures var after := BuildTo(cfg, invoices, start, ChunkEnd(invoices, start), old(Now([], before, None)));
        && r.Err? == after.fault.Some?
        && Visible(counter.file) == after.file && events == after.events && after.results == before
        && (if r.Ok? then after.packets == r.value else after.fault == Some(r.error))
    {
      var packets: seq<Packet> := [];
      var stop := ChunkEnd(invoices, start);
      ghost var s0 := Now([], before, None);
      for i := start to stop
        invariant BuildTo(cfg, invoices, start, i, s0) == Now(packets, before, None)
      {
        ghost var s := Now(packets, before, None);
        if cfg.validate && !cfg.valid(invoices[i]) {
          FaultStays(cfg, invoices, start, i + 1, stop, s0);
          return Err(InvalidInvoice);
        }
        var complete := WithIdentity(invoices[i], i);
        if complete.Err? {
          FaultStays(cfg, invoices, start, i + 1, stop, s0);
          return Err(complete.error);
        }
        packets := packets + [Packet(cfg.uid(i), complete.value)];
      }
      return Ok(packets);
    }

    method WithIdentity(invoice: Invoice, ghost i: nat) returns (r: Result<Invoice, Fault>)
      modifies this, counter
      ensures !IsBlank(invoice) ==>
        r == Ok(invoice) && Visible(counter.file) == old(Visible(counter.file)) && events == old(events)
      ensures IsBlank(invoice) ==>
        match NextSerial(old(Visible(counter.file)))
        case Err(why) =>
          r == Err(NoSerial(why)) && Visible(counter.file) == old(Visible(counter.file)) && events == old(events)
        case Ok(serial) =>
          && Visible(counter.file) == Number(serial) && events == old(events) + [Drew(i, serial)]
          && r == (match Identified(cfg, invoice, serial) case Err(why) => Err(NoTaxId(why)) case Ok(c) => Ok(c))
    {
      hide GenerateTaxId, InvoiceSerialHex;
      if invoice.taxid != "" {
        return Ok(invoice);
      }
      var drawn := counter.Call();
      if drawn.Err? {
        return Err(NoSerial(drawn.error));
      }
      var serial := drawn.value;
      events := events + [Drew(i, serial)];
      var complete := invoice;
      var id := GenerateTaxId(cfg.memory, serial, invoice.indatim as real / 1000.0);
      if id.Err? {
        return Err(NoTaxId(id.error));
      }
      complete := complete.(taxid := id.value);
      var inno := InvoiceSerialHex(serial);
      if inno.Err? {
        return Err(NoTaxId(inno.error));
      }
      complete := complete.(inno := inno.value);
      return Ok(complete);
    }
  }

  /** An exception ends the building of a chunk. */
  lemma {:induction false} FaultStays(
    cfg: Config, invoices: seq<Invoice>, start: nat, mid: nat, stop: nat, s: Session)
    requires start <= mid <= stop <= |invoices| && BuildTo(cfg, invoices, start, mid, s).fault.Some?
    ensures BuildTo(cfg, invoices, start, stop, s) == BuildTo(cfg, invoices, start, mid, s)
    decreases stop - mid
  {
    if mid < stop {
      FaultStays(cfg, invoices, start, mid, stop - 1, s);
    }
  }
}
