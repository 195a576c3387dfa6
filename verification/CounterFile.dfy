/** The file that holds one fiscal memory's last issued serial, as a crash leaves it.

    A rename replaces the name at once but is only certain to survive a power loss after the
    directory is synced; until then the disk may come back with any name it has held since.
 */
module CounterFile {
  import opened Results
  import opened TaxId

  /** What reading the file finds. */
  datatype Contents = Missing | Unreadable | NotANumber | Number(n: int)

  /** A file the name has pointed at, and whether its data was forced to disk. */
  datatype Entry = Entry(contents: Contents, synced: bool)

  datatype CounterError = UnreadableFile | HoldsNoNumber | HoldsNegative | Exhausted

  /** The name's history since the last directory sync: first the one certain to survive, last
      the one now visible. */
  type History = h: seq<Entry> | h != [] witness [Entry(Missing, true)]

  function Visible(h: History): Contents
  {
    h[|h| - 1].contents
  }

  /** The last serial issued according to the file; an absent file has issued none. */
  function ReadContents(c: Contents): Result<nat, CounterError>
  {
    match c
    case Missing => Ok(0)
    case Unreadable => Err(UnreadableFile)
    case NotANumber => Err(HoldsNoNumber)
    case Number(n) => if n < 0 then Err(HoldsNegative) else Ok(n)
  }

  /** A file that is there and holds no serial: it cannot be read, or what it holds is no number or a
      negative one. */
  predicate Damaged(c: Contents)
  {
    c.Unreadable? || c.NotANumber? || (c.Number? && c.n < 0)
  }

  /** The serial the next call draws, or why it refuses. */
  function NextSerial(c: Contents): Result<nat, CounterError>
  {
    match ReadContents(c)
    case Err(e) => Err(e)
    case Ok(last) => if last + 1 > MAX_SERIAL then Err(Exhausted) else Ok(last + 1)
  }

  /** A file that, if it can be read at all, is not behind `serial`. */
  predicate Covers(c: Contents, serial: nat)
  {
    ReadContents(c).Ok? ==> serial <= ReadContents(c).value
  }
}
