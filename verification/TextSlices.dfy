/** read_text_slice of src/utils/filesys.rs: one window of a file, whatever lengths the reads return. */
module TextSlices {
  import opened Numbers
  import opened Wrappers
  import opened Bytes

  const MAX_READ_BYTES := 256 * 1024
  const SNIFF_BYTES := 8192
  const NEWLINE: byte := 10

  datatype ReadError = Io | Binary

  /** An open file whose bytes do not change; `reported` is the length its metadata gave. */
  class FileHandle {
    const data: seq<byte>
    const reported: nat
    var pos: nat

    constructor (data: seq<byte>, reported: nat)
      ensures this.data == data && this.reported == reported && pos == 0
    {
      this.data, this.reported, pos := data, reported, 0;
    }

    /** A read may fail, and may return fewer bytes than asked for, but zero only at the end or for an empty buffer. */
    method Read(buf: array<byte>, from: nat) returns (r: Result<nat, ReadError>)
      requires from <= buf.Length
      modifies this`pos, buf
      ensures buf[..from] == old(buf[..from])
      ensures r.Err? ==> r.error == Io
      ensures r.Ok? ==>
                && r.value <= buf.Length - from
                && (r.value == 0 <==> from == buf.Length || old(pos) >= |data|)
                && pos == old(pos) + r.value
                && (r.value > 0 ==> pos <= |data| && buf[from..from + r.value] == data[old(pos)..pos])
    {
      if * {
        return Err(Io);
      }
      if from == buf.Length || pos >= |data| {
        return Ok(0);
      }
      var limit := if |data| - pos < buf.Length - from then |data| - pos else buf.Length - from;
      assert 1 <= limit;
      var n :| 1 <= n <= limit;
      var i := 0;
      while i < n
        invariant i <= n && buf[..from] == old(buf[..from])
        invariant buf[from..from + i] == data[pos..pos + i]
        modifies buf
      {
        buf[from + i] := data[pos + i];
        assert buf[from..from + i + 1] == buf[from..from + i] + [data[pos + i]];
        i := i + 1;
      }
      pos := pos + n;
      return Ok(n);
    }

    method Seek(start: nat)
      modifies this`pos
      ensures pos == start
    {
      pos := start;
    }
  }

  // ---------------------------------------------------------------------------------------------
  // What is asked for.

  datatype Mode = Head | Tail | All

  function Start(mode: Mode, total: nat, want: nat): nat {
    if mode == Tail && want < total then total - want else 0
  }

  /** The bytes from start on, at most want of them. */
  function Window(data: seq<byte>, start: nat, want: nat): seq<byte> {
    if start <= |data| then data[start..Min(start + want, |data|)] else []
  }

  function FirstNewline(w: seq<byte>): (i: nat)
    ensures i <= |w| && (i < |w| ==> w[i] == NEWLINE) && NEWLINE !in w[..i]
  {
    if w == [] || w[0] == NEWLINE then 0 else
      var i := 1 + FirstNewline(w[1..]);
      assert w[..i] == [w[0]] + w[1..][..i - 1];
      i
  }

  /** Drops everything up to and including the first newline, if there is one. */
  function Aligned(w: seq<byte>): seq<byte> {
    var i := FirstNewline(w);
    if i < |w| then w[i + 1..] else w
  }

  function Controls(sample: seq<byte>): nat {
    if sample == [] then 0 else
      (if sample[0] < 32 && sample[0] != 9 && sample[0] != 10 && sample[0] != 13 then 1 else 0) + Controls(sample[1..])
  }

  predicate IsProbablyBinary(sample: seq<byte>) {
    sample != [] && (0 in sample || Controls(sample) * 100 > |sample| * 30)
  }

  datatype TextReadOutcome = TextReadOutcome(
    content: seq<byte>, totalBytes: nat, returnedBytes: nat, truncated: bool, mode: Mode, wholeFile: bool)

  // ---------------------------------------------------------------------------------------------
  // The reader.

  lemma WindowGrows(data: seq<byte>, start: nat, filled: nat, n: nat)
    requires start + filled + n <= |data|
    ensures Window(data, start, filled + n) == Window(data, start, filled) + data[start + filled..start + filled + n]
  {
  }

  method FillBuffer(f: FileHandle, buf: array<byte>, start: nat) returns (r: Result<nat, ReadError>)
    requires f.pos == start
    modifies f`pos, buf
    ensures r.Err? ==> r.error == Io
    ensures r.Ok? ==> r.value <= buf.Length && buf[..r.value] == Window(f.data, start, buf.Length)
  {
    var filled := 0;
    while true
      invariant filled <= buf.Length && f.pos == start + filled
      invariant buf[..filled] == Window(f.data, start, filled)
      decreases buf.Length - filled
    {
      var read := f.Read(buf, filled);
      if read.Err? {
        return Err(read.error);
      }
      if read.value == 0 {
        break;
      }
      WindowGrows(f.data, start, filled, read.value);
      assert buf[..filled + read.value] == buf[..filled] + buf[filled..filled + read.value];
      filled := filled + read.value;
      if filled >= buf.Length {
        break;
      }
    }
    return Ok(filled);
  }

  method ReadTextSlice(f: FileHandle, mode: Mode, maxBytes: nat) returns (r: Result<TextReadOutcome, ReadError>)
    requires f.pos == 0
    modifies f`pos
    ensures r.Ok? ==>
              var want := Min(maxBytes, MAX_READ_BYTES);
              var start := Start(mode, f.reported, want);
              var window := Window(f.data, start, want);
              && r.value.returnedBytes == |window| && r.value.totalBytes == f.reported && r.value.mode == mode
              && r.value.content == (if start > 0 then Aligned(window) else window)
              && r.value.truncated == !r.value.wholeFile
              && (r.value.wholeFile <==> start == 0 && |window| >= f.reported)
              && (f.reported == |f.data| ==> (r.value.wholeFile <==> r.value.content == f.data))
    ensures r == Err(Binary) ==> exists n :: 0 <= n <= Min(SNIFF_BYTES, |f.data|) && IsProbablyBinary(f.data[..n])
  {
    var total := f.reported;
    var sniff := new byte[SNIFF_BYTES];
    var n := f.Read(sniff, 0);
    if n.Err? {
      return Err(n.error);
    }
    if IsProbablyBinary(sniff[..n.value]) {
      assert sniff[..n.value] == f.data[..n.value];
      return Err(Binary);
    }
    var want := Min(maxBytes, MAX_READ_BYTES);
    var start, truncatedByWindow;
    match mode {
      case Tail =>
        start := if total < want then 0 else total - want;
        truncatedByWindow := start > 0;
      case All => start, truncatedByWindow := 0, total > want;
      case Head => start, truncatedByWindow := 0, total > want;
    }
    f.Seek(start);
    var buf := new byte[want](_ => 0);
    var filled := FillBuffer(f, buf, start);
    if filled.Err? {
      return Err(filled.error);
    }
    var content := buf[..filled.value];
    if mode == Tail && start > 0 {
      content := Aligned(content);
    }
    return Ok(TextReadOutcome(content, total, filled.value, truncatedByWindow || total > filled.value, mode,
                              start == 0 && filled.value >= total));
  }

  // ---------------------------------------------------------------------------------------------
  // What the alignment means.

  /** The kept tail is the longest suffix of the window that follows a newline of the window; without one, all of it. */
  lemma AlignedIsLongestLineSuffix(w: seq<byte>)
    ensures NEWLINE !in w ==> Aligned(w) == w
    ensures NEWLINE in w ==>
              exists k :: 0 < k <= |w| && w[k - 1] == NEWLINE && Aligned(w) == w[k..]
                && forall j :: 0 < j <= |w| && w[j - 1] == NEWLINE ==> |w[j..]| <= |w[k..]|
  {
    var i := FirstNewline(w);
    if i < |w| {
      var k := i + 1;
      assert w[k - 1] == NEWLINE && Aligned(w) == w[k..];
      assert forall m :: 0 <= m < i ==> w[..i][m] == w[m];
    } else {
      assert w[..i] == w;
    }
  }

  /** Position in the file where the text of a tail read begins. */
  function TailFrom(data: seq<byte>, start: nat, want: nat): nat {
    var w := Window(data, start, want);
    start + |w| - |Aligned(w)|
  }

  /**
   * A tail read past byte 0 begins right after a newline exactly when its window holds a newline or
   * happens to start after one: one long line is returned from its middle.
   */
  lemma TailStartsALine(data: seq<byte>, want: nat)
    requires want < |data|
    ensures var start := |data| - want;
            data[TailFrom(data, start, want) - 1] == NEWLINE
            <==> NEWLINE in data[start..] || data[start - 1] == NEWLINE
  {
    var start := |data| - want;
    var w := Window(data, start, want);
    assert w == data[start..];
    var i := FirstNewline(w);
    if i < |w| {
      assert data[start + i] == NEWLINE;
    } else {
      assert w[..i] == w;
    }
  }
}
