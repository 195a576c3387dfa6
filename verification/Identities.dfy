/** Under which identity each invoice of a submission is filed. */
module Identities {
  import opened Results
  import opened TaxId
  import opened CounterFile
  import opened Pipeline
  import opened PipelineLaws
  import Text

  /** `sent` is the invoice with an id of this memory, serial and its own day, and the `inno` that goes
      with it; nothing else is changed. */
  ghost predicate CarriesSerial(memory: string, invoice: Invoice, serial: nat, sent: Invoice)
  {
    && |sent.taxid| == 22 && SerialOf(sent.taxid) == Ok((Text.Upper(memory), serial))
    && sent.inno == sent.taxid[11..21]
    && Text.AllHex(sent.taxid[6..11]) && Text.Value(sent.taxid[6..11], 16) == invoice.indatim / 86_400_000
    && sent.indatim == invoice.indatim && sent.content == invoice.content
  }

  lemma IdentityIs(cfg: Config, invoice: Invoice, serial: nat)
    requires Identified(cfg, invoice, serial).Ok?
    ensures CarriesSerial(cfg.memory, invoice, serial, Identified(cfg, invoice, serial).value)
  {
    hide GenerateTaxId, InvoiceSerialHex, SerialOf, Text.Value, Text.Padded, Text.Upper, Text.AllHex, Day;
    var instant := invoice.indatim as real / 1000.0;
    Shape(cfg.memory, serial, instant);
    SerialOfGenerated(cfg.memory, serial, instant);
    DayOfMillis(invoice.indatim);
  }

  // ---- Draws -------------------------------------------------------------------------------------------

  lemma {:induction false} DrewInTrace(file: Contents, invoices: seq<Invoice>, n: nat, i: nat, serial: nat)
    requires n <= |invoices| && Drew(i, serial) in Trace(file, invoices, n)
    ensures i < n && invoices[i].taxid == "" && serial == SerialAt(file, invoices, i)
    decreases n
  {
    if n > 0 {
      hide SerialAt;
      var b := Before(file, invoices, n - 1);
      assert Trace(file, invoices, n) == b + DrawAt(file, invoices, n - 1);
      if Drew(i, serial) in b {
        assert b == Trace(file, invoices, n - 1) + AnswerBefore(n - 1);
        DrewInTrace(file, invoices, n - 1, i, serial);
      }
    }
  }

  lemma {:induction false} BlankDrew(file: Contents, invoices: seq<Invoice>, n: nat, i: nat)
    requires i < n <= |invoices| && invoices[i].taxid == ""
    ensures Drew(i, SerialAt(file, invoices, i)) in Trace(file, invoices, n)
    decreases n
  {
    hide SerialAt;
    assert Trace(file, invoices, n) == Before(file, invoices, n - 1) + DrawAt(file, invoices, n - 1);
    if i < n - 1 {
      BlankDrew(file, invoices, n - 1, i);
      assert Before(file, invoices, n - 1) == Trace(file, invoices, n - 1) + AnswerBefore(n - 1);
    }
  }

  lemma {:induction false} BlanksMonotone(invoices: seq<Invoice>, m: nat, n: nat)
    requires m <= n <= |invoices|
    ensures Blanks(invoices, m) <= Blanks(invoices, n)
    decreases n
  {
    if m < n {
      BlanksMonotone(invoices, m, n - 1);
    }
  }

  lemma SerialsAscend(file: Contents, invoices: seq<Invoice>, i: nat, j: nat)
    requires i < j < |invoices| && invoices[j].taxid == ""
    ensures SerialAt(file, invoices, i) < SerialAt(file, invoices, j)
  {
    BlanksMonotone(invoices, i + 1, j);
  }

  // ---- Submissions -------------------------------------------------------------------------------------

  /** Invoice `i` went out as `sent`, at its place in a chunk of at most 1000 that was answered. */
  ghost predicate WasSent(cfg: Config, i: nat, sent: Invoice)
  {
    exists packets :: i % 1000 < |packets| <= 1000 && packets[i % 1000] == Packet(cfg.uid(i), sent)
                      && cfg.respond(i - i % 1000, packets).Some?
  }

  /** The result of invoice `i` under the serial drawn for it. */
  ghost predicate FiledUnder(cfg: Config, invoice: Invoice, i: nat, serial: nat, r: Submission)
  {
    exists sent :: CarriesSerial(cfg.memory, invoice, serial, sent) && WasSent(cfg, i, sent) && r.taxId == sent.taxid
  }

  lemma ResultIs(cfg: Config, file: Contents, invoices: seq<Invoice>, i: nat, r: Submission)
    requires i < |invoices| && HasResult(cfg, file, invoices, i, r)
    ensures r.uid == cfg.uid(i)
    ensures invoices[i].taxid != "" ==> r.taxId == invoices[i].taxid && WasSent(cfg, i, invoices[i])
    ensures invoices[i].taxid == "" ==> FiledUnder(cfg, invoices[i], i, SerialAt(file, invoices, i), r)
  {
    hide Identified, SerialAt, ResultFor, CarriesSerial;
    var packets: seq<Packet> :| IsResult(cfg, file, invoices, i, r, packets);
    var sent := packets[i % 1000].invoice;
    assert packets[i % 1000] == Packet(cfg.uid(i), sent);
    assert WasSent(cfg, i, sent);
    if invoices[i].taxid == "" {
      IdentityIs(cfg, invoices[i], SerialAt(file, invoices, i));
    }
  }

  /** Of a submission that ends without an exception: each result is its invoice's own; an id given by the
      caller is left alone; and for each serial drawn, the invoice it was drawn for was sent under an id
      and an `inno` of that serial, of its own day and this memory. */
  lemma FiledUnderDrawn(cfg: Config, invoices: seq<Invoice>, file: Contents, i: nat)
    requires Submitted(cfg, invoices, file).fault.None? && i < |invoices|
    ensures var end := Submitted(cfg, invoices, file);
      && |end.results| == |invoices| && end.results[i].uid == cfg.uid(i)
      && (invoices[i].taxid != "" ==> end.results[i].taxId == invoices[i].taxid && WasSent(cfg, i, invoices[i]))
      && (invoices[i].taxid == "" <==> exists serial :: Drew(i, serial) in end.events)
      && (forall serial | Drew(i, serial) in end.events :: FiledUnder(cfg, invoices[i], i, serial, end.results[i]))
  {
    hide Submitted, HasResult, FiledUnder, WasSent, Trace, SerialAt;
    SubmissionAccounts(cfg, file, invoices);
    var end := Submitted(cfg, invoices, file);
    ResultIs(cfg, file, invoices, i, end.results[i]);
    EventsAre(cfg, invoices, file);
    forall serial | Drew(i, serial) in end.events
      ensures invoices[i].taxid == "" && FiledUnder(cfg, invoices[i], i, serial, end.results[i])
    {
      DrewInTrace(file, invoices, |invoices|, i, serial);
    }
    if invoices[i].taxid == "" {
      BlankDrew(file, invoices, |invoices|, i);
    }
  }

  lemma EventsAre(cfg: Config, invoices: seq<Invoice>, file: Contents)
    requires Submitted(cfg, invoices, file).fault.None? && invoices != []
    ensures forall i, serial :: Drew(i, serial) in Submitted(cfg, invoices, file).events
                                <==> Drew(i, serial) in Trace(file, invoices, |invoices|)
  {
    hide Submitted, ResultsRight, AllPass, Trace;
    SubmissionAccounts(cfg, file, invoices);
  }

  /** The ids of two invoices that had none are never the same, whatever their days. */
  lemma DrawnIdsDiffer(cfg: Config, invoices: seq<Invoice>, file: Contents, i: nat, j: nat)
    requires Submitted(cfg, invoices, file).fault.None? && i < j < |invoices|
    requires invoices[i].taxid == "" && invoices[j].taxid == ""
    ensures var results := Submitted(cfg, invoices, file).results;
      |results| == |invoices| && results[i].taxId != results[j].taxId
  {
    hide Submitted, HasResult, SerialAt, WasSent;
    SubmissionAccounts(cfg, file, invoices);
    var results := Submitted(cfg, invoices, file).results;
    ResultIs(cfg, file, invoices, i, results[i]);
    ResultIs(cfg, file, invoices, j, results[j]);
    SerialsAscend(file, invoices, i, j);
    hide SerialOf;
  }
}
