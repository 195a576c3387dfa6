/** One host, one counter file per fiscal memory: the tax ids of a whole run. */
module Host {
  import opened Results
  import opened TaxId
  import opened CounterProtocol
  import Text

  /** The counters by memory. */
  type Counters = map<string, State>

  /** A step of one memory's counter; a host-wide power loss is one such step for each. */
  datatype HostStep = HostStep(memory: string, step: Step)

  function HostApply(h: Counters, s: HostStep): Option<Counters>
  {
    if s.memory !in h then None
    else
      match Apply(h[s.memory], s.step)
      case None => None
      case Some(t) => Some(h[s.memory := t])
  }

  function HostRun(h: Counters, steps: seq<HostStep>): Option<Counters>
  {
    if steps == [] then Some(h)
    else
      match HostRun(h, steps[..|steps| - 1])
      case None => None
      case Some(before) => HostApply(before, steps[|steps| - 1])
  }

  ghost predicate AllStart(h: Counters)
  {
    forall m | m in h :: exists contents :: h[m] == Start(contents)
  }

  /** The steps of one memory. */
  function StepsOf(steps: seq<HostStep>, memory: string): seq<Step>
  {
    if steps == [] then []
    else
      var front := StepsOf(steps[..|steps| - 1], memory);
      var last := steps[|steps| - 1];
      if last.memory == memory then front + [last.step] else front
  }

  /** Memories do not disturb one another. */
  lemma {:induction false} MemoriesAreIndependent(h: Counters, steps: seq<HostStep>)
    requires HostRun(h, steps).Some?
    ensures var end := HostRun(h, steps).value;
      end.Keys == h.Keys && forall m | m in h :: Run(h[m], StepsOf(steps, m)) == Some(end[m])
  {
    if steps != [] {
      var front, last := steps[..|steps| - 1], steps[|steps| - 1];
      MemoriesAreIndependent(h, front);
      var before, end := HostRun(h, front).value, HostRun(h, steps).value;
      forall m | m in h
        ensures Run(h[m], StepsOf(steps, m)) == Some(end[m])
      {
        if last.memory == m {
          RunSnoc(h[m], StepsOf(front, m), last.step);
        }
      }
    }
  }

  /** The serial a caller received: its memory and its place in the order of returns. */
  datatype Draw = Draw(memory: string, index: nat)

  predicate Drawn(h: Counters, d: Draw)
  {
    d.memory in h && d.index < |h[d.memory].returned|
  }

  function SerialOfDraw(h: Counters, d: Draw): nat
    requires Drawn(h, d)
  {
    h[d.memory].returned[d.index].serial
  }

  /** The memories a profile may name: six upper-case letters or digits. */
  predicate IsProfileMemory(memory: string)
  {
    |memory| == 6 && IsPlain(memory)
  }

  lemma MemoryIsUpper(h: Counters, steps: seq<HostStep>, d: Draw)
    requires (forall m | m in h :: IsProfileMemory(m)) && HostRun(h, steps).Some? && Drawn(HostRun(h, steps).value, d)
    ensures Text.Upper(d.memory) == d.memory
  {
    MemoriesAreIndependent(h, steps);
    PlainIsNormal(d.memory);
  }

  lemma DrawsDiffer(h: Counters, steps: seq<HostStep>, d: Draw, d': Draw)
    requires AllStart(h) && HostRun(h, steps).Some? && d != d' && d.memory == d'.memory
    requires Drawn(HostRun(h, steps).value, d) && Drawn(HostRun(h, steps).value, d')
    ensures SerialOfDraw(HostRun(h, steps).value, d) != SerialOfDraw(HostRun(h, steps).value, d')
  {
    hide HostRun, StepsOf, Run;
    MemoriesAreIndependent(h, steps);
    var contents :| h[d.memory] == Start(contents);
    SerialsNeverRepeat(contents, StepsOf(steps, d.memory));
    var returned := HostRun(h, steps).value[d.memory].returned;
    assert d.index < d'.index || d'.index < d.index;
    hide *;
  }

  /** In any run on one host, over all its memories: the tax ids made from any two serials
      handed out, for invoices of any date, are different; each is 22 characters and carries in
      its serial segment the `inno` set with it. */
  lemma TaxIdsNeverRepeat(h: Counters, steps: seq<HostStep>, d: Draw, millis: int, d': Draw, millis': int)
    requires AllStart(h) && (forall m | m in h :: IsProfileMemory(m))
    requires HostRun(h, steps).Some?
    requires Drawn(HostRun(h, steps).value, d) && Drawn(HostRun(h, steps).value, d') && d != d'
    requires var end := HostRun(h, steps).value;
      && GenerateTaxId(d.memory, SerialOfDraw(end, d), millis as real / 1000.0).Ok?
      && GenerateTaxId(d'.memory, SerialOfDraw(end, d'), millis' as real / 1000.0).Ok?
    ensures var end := HostRun(h, steps).value;
      var id := GenerateTaxId(d.memory, SerialOfDraw(end, d), millis as real / 1000.0).value;
      var id' := GenerateTaxId(d'.memory, SerialOfDraw(end, d'), millis' as real / 1000.0).value;
      && id != id'
      && |id| == TAX_ID_LENGTH
      && InvoiceSerialHex(SerialOfDraw(end, d)) == Ok(id[11..21])
  {
    hide *;
    var end := HostRun(h, steps).value;
    var s, s' := SerialOfDraw(end, d), SerialOfDraw(end, d');
    var t, t' := millis as real / 1000.0, millis' as real / 1000.0;
    MemoryIsUpper(h, steps, d);
    MemoryIsUpper(h, steps, d');
    if d.memory == d'.memory {
      DrawsDiffer(h, steps, d, d');
    }
    SameIdIff(d.memory, s, t, d'.memory, s', t');
    Shape(d.memory, s, t);
  }

  /** The rule that memories are upper case is needed: two memories that differ only in case
      have separate counters but the same tax ids. */
  lemma CaseVariantsCollide(memory: string, other: string, serial: int, issuedAt: real)
    requires Text.Upper(memory) == Text.Upper(other)
    requires GenerateTaxId(memory, serial, issuedAt).Ok?
    ensures GenerateTaxId(other, serial, issuedAt) == GenerateTaxId(memory, serial, issuedAt)
  {
    forall i | 0 <= i < 6
      ensures IsAlnum(other[i])
    {
      assert IsAlnum(memory[i]);
      assert Text.UpperChar(other[i]) == Text.Upper(other)[i] == Text.UpperChar(memory[i]);
    }
  }
}
