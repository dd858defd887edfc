/** The ground ELF inspection stands on: words in either byte order, arithmetic that does not wrap,
    and a reader that stays inside the approved range and the byte budget. */
module ElfReader {
  import opened Numbers
  import opened Options
  import opened Bytes
  import opened LogModel

  const U64_MAX: nat := 0xFFFF_FFFF_FFFF_FFFF
  type U64 = n: nat | n <= U64_MAX

  datatype ElfError = InvalidFormat | UnsupportedFeature | MetadataTooLarge | ReadError | Interrupted(reason: StopReason)
  datatype Result<T> = Ok(value: T) | Err(code: ElfError)

  // ---------- Checked arithmetic ----------

  function CheckedAdd(left: U64, right: U64): (r: Option<U64>)
    ensures r == if left + right <= U64_MAX then Some(left + right) else None
  {
    if right > U64_MAX - left then None else Some((left + right) % (U64_MAX + 1))
  }

  // The test by division is the test of the product.
  lemma QuotientBounds(n: nat, d: nat, m: nat)
    requires d > 0
    ensures m > n / d <==> d * m > n
  {
    var q := n / d;
    assert d * q <= n < d * q + d;
    if m > q {
      assert d * m >= d * (q + 1) == d * q + d;
    } else {
      assert d * m <= d * q;
    }
  }

  function CheckedMultiply(left: U64, right: U64): Option<U64> {
    if left != 0 && right > U64_MAX / left then None else Some((left * right) % (U64_MAX + 1))
  }

  lemma CheckedMultiplyIs(left: U64, right: U64)
    ensures CheckedMultiply(left, right) == if left * right <= U64_MAX then Some(left * right) else None
  {
    var product := left * right;
    if left != 0 {
      QuotientBounds(U64_MAX, left, right);
    }
    assert product <= U64_MAX ==> product % (U64_MAX + 1) == product;
  }

  function RangeInside(offset: U64, size: U64, limit: nat): (r: bool)
    ensures r <==> offset + size <= limit && offset + size <= U64_MAX
  {
    var end := CheckedAdd(offset, size);
    end.Some? && end.value <= limit
  }

  // ---------- Words ----------

  function Pow256(n: nat): nat {
    if n == 0 then 1 else 256 * Pow256(n - 1)
  }

  /** The value of bytes with the least significant one first. */
  function Little(bytes: seq<Byte>): nat {
    if bytes == [] then 0 else bytes[0] as nat + 256 * Little(bytes[1..])
  }

  /** The value of bytes with the most significant one first. */
  function Big(bytes: seq<Byte>): nat {
    if bytes == [] then 0 else 256 * Big(bytes[..|bytes| - 1]) + bytes[|bytes| - 1] as nat
  }

  function Word(bytes: seq<Byte>, little: bool): nat {
    if little then Little(bytes) else Big(bytes)
  }

  lemma {:induction false} LittleAppend(bytes: seq<Byte>, b: Byte)
    ensures Little(bytes + [b]) == Little(bytes) + b as nat * Pow256(|bytes|)
  {
    if bytes == [] {
      assert ([] + [b])[1..] == [];
    } else {
      LittleAppend(bytes[1..], b);
      assert (bytes + [b])[1..] == bytes[1..] + [b];
    }
  }

  lemma {:induction false} WordFits(bytes: seq<Byte>, little: bool)
    ensures Word(bytes, little) < Pow256(|bytes|)
  {
    if bytes != [] {
      if little {
        WordFits(bytes[1..], true);
      } else {
        WordFits(bytes[..|bytes| - 1], false);
      }
    }
  }

  /** read_u16, read_u32 and read_u64. */
  method ReadWord(bytes: seq<Byte>, little: bool) returns (value: nat)
    ensures value == Word(bytes, little) && value < Pow256(|bytes|)
  {
    value := 0;
    var i, unit := 0, 1;
    while i < |bytes|
      invariant 0 <= i <= |bytes| && unit == Pow256(i) && value == Word(bytes[..i], little)
    {
      assert bytes[..i + 1] == bytes[..i] + [bytes[i]];
      if little {
        LittleAppend(bytes[..i], bytes[i]);
        value := value + bytes[i] as nat * unit;
      } else {
        value := value * 256 + bytes[i] as nat;
      }
      i, unit := i + 1, unit * 256;
    }
    assert bytes[..i] == bytes;
    WordFits(bytes, little);
  }

  // ---------- The reader ----------

  /** One pread: the range it asked for, and how many bytes it got. */
  datatype Request = Request(offset: nat, size: nat, got: nat)

  function Fetched(asked: seq<Request>): nat {
    if asked == [] then 0 else Fetched(asked[..|asked| - 1]) + asked[|asked| - 1].got
  }

  class Reader {
    const file: ReadOnlyFile
    const metadataLimit: nat
    var bytesRead: nat
    var turns: seq<Turn>
    ghost var asked: seq<Request>

    constructor (file: ReadOnlyFile, metadataLimit: nat, turns: seq<Turn>)
      ensures this.file == file && this.metadataLimit == metadataLimit && this.turns == turns
      ensures Valid() && Clean() && asked == [] && bytesRead == 0
    {
      this.file, this.metadataLimit, this.turns := file, metadataLimit, turns;
      bytesRead, asked := 0, [];
    }

    /** Every pread, whatever came of it, asked for a range in the approved part of the file. */
    ghost predicate Valid()
      reads this
    {
      bytesRead <= metadataLimit && forall i :: 0 <= i < |asked| ==> asked[i].offset + asked[i].size <= file.ReadLimit()
    }

    /** No read has failed so far: the bytes fetched are those of completed reads. */
    ghost predicate Clean()
      reads this
    {
      Fetched(asked) == bytesRead
    }

    /** All bytes fetched, those of a failed read included, are within the budget. */
    ghost predicate Thrifty()
      reads this
    {
      Fetched(asked) <= metadataLimit
    }

    function FileLimit(): nat {
      file.ReadLimit()
    }

    method CheckOperation() returns (stopped: Option<ElfError>)
      modifies this`turns
      ensures stopped.Some? ==> stopped.value.Interrupted?
      ensures |turns| <= |old(turns)| && (Undisturbed(old(turns)) ==> stopped.None? && Undisturbed(turns))
    {
      if turns == [] {
        return None;
      }
      stopped := if turns[0].stop.Some? then Some(Interrupted(turns[0].stop.value)) else None;
      turns := turns[1..];
    }

    /** One pread at `offset`: at most `size` bytes, none only at the end of the file. */
    method Pread(offset: nat, size: nat) returns (r: Option<seq<Byte>>, interrupted: bool)
      requires size > 0
      modifies this`turns, this`asked
      ensures interrupted ==> |turns| < |old(turns)| && r.None?
      ensures |turns| <= |old(turns)|
      ensures r.Some? ==>
                |r.value| <= size && offset + |r.value| <= Max(offset, |file.content|) && r.value == Slice(file.content, offset, |r.value|) &&
                (r.value == [] <==> offset >= |file.content|)
      ensures Undisturbed(old(turns)) ==> Undisturbed(turns) && (r.Some? || interrupted)
      ensures asked == old(asked) + [Request(offset, size, if r.Some? then |r.value| else 0)]
    {
      var available := if offset < |file.content| then Min(size, |file.content| - offset) else 0;
      if turns == [] {
        asked := asked + [Request(offset, size, available)];
        return Some(Slice(file.content, offset, available)), false;
      }
      var turn := turns[0];
      turns := turns[1..];
      match turn.read {
        case Interrupt =>
          asked := asked + [Request(offset, size, 0)];
          return None, true;
        case Fail =>
          asked := asked + [Request(offset, size, 0)];
          return None, false;
        case Give(n) =>
          asked := asked + [Request(offset, size, Min(available, n + 1))];
          return Some(Slice(file.content, offset, Min(available, n + 1))), false;
      }
    }

    /** The loop over short and interrupted reads. It asks for nothing outside the range, and fetches
        no byte of it twice. */
    method Fill(offset: nat, size: nat) returns (r: Result<seq<Byte>>)
      modifies this`turns, this`asked
      ensures r.Ok? ==> |r.value| == size && r.value == Slice(file.content, offset, size)
      ensures r.Ok? && size > 0 ==> offset + size <= |file.content|
      ensures Undisturbed(old(turns)) ==> Undisturbed(turns) && (r.Ok? <==> size == 0 || offset + size <= |file.content|)
      ensures Undisturbed(old(turns)) && r.Err? ==> r.code == InvalidFormat
      ensures Within(old(asked), asked, offset, size)
      ensures Fetched(asked) <= Fetched(old(asked)) + size && (r.Ok? ==> Fetched(asked) == Fetched(old(asked)) + size)
    {
      hide Undisturbed, Slice, Fetched;
      var output: seq<Byte> := [];
      SliceNothing(file.content, offset);
      while |output| < size
        invariant |output| <= size && output == Slice(file.content, offset, |output|)
        invariant output != [] ==> offset + |output| <= |file.content|
        invariant Undisturbed(old(turns)) ==> Undisturbed(turns)
        invariant Within(old(asked), asked, offset, size) && Fetched(asked) == Fetched(old(asked)) + |output|
        decreases size - |output|, |turns|
      {
        var stopped := CheckOperation();
        if stopped.Some? {
          return Err(stopped.value);
        }
        ghost var before := asked;
        var piece, interrupted := Pread(offset + |output|, size - |output|);
        FetchedMore(before, asked[|before|]);
        if interrupted {
          continue;
        }
        if piece.None? {
          return Err(ReadError);
        }
        if piece.value == [] {
          return Err(InvalidFormat);
        }
        SliceJoins(file.content, offset, |output|, |piece.value|);
        output := output + piece.value;
      }
      r := Ok(output);
    }

    /** The range lies in the approved part of the file. */
    predicate InRange(offset: U64, size: U64) {
      offset + size <= FileLimit() && offset + size <= U64_MAX
    }

    /** Read `size` bytes at `offset`: all of them and exactly them, or an error. Nothing is fetched
        that the range and the budget do not admit. Without cancellation, deadline and read errors it
        fails only outside the range, over the budget or past the end of the file. */
    method Read(offset: U64, size: U64) returns (r: Result<seq<Byte>>)
      requires Valid()
      modifies this
      ensures Valid()
      ensures r.Ok? ==> |r.value| == size && r.value == Slice(file.content, offset, size) && Readable(file, offset, size)
      ensures bytesRead == if r.Ok? then old(bytesRead) + size else old(bytesRead)
      ensures Fetched(asked) - Fetched(old(asked)) <= metadataLimit - old(bytesRead)
      ensures r.Ok? ==> Fetched(asked) == Fetched(old(asked)) + size
      ensures Undisturbed(old(turns)) ==> Undisturbed(turns)
      ensures Undisturbed(old(turns)) ==> (r.Ok? <==> Readable(file, offset, size) && old(bytesRead) + size <= metadataLimit)
      ensures Undisturbed(old(turns)) && r.Err? ==>
                r.code == (if InRange(offset, size) && old(bytesRead) + size > metadataLimit then MetadataTooLarge else InvalidFormat)
    {
      hide Undisturbed, Slice, Fetched, ReadOnlyFile.ReadLimit;
      var stopped := CheckOperation();
      if stopped.Some? {
        return Err(stopped.value);
      }
      var end := CheckedAdd(offset, size);
      if end.None? || end.value > FileLimit() {
        return Err(InvalidFormat);
      }
      assert InRange(offset, size);
      if size > metadataLimit - bytesRead {
        return Err(MetadataTooLarge);
      }
      r := Fill(offset, size);
      if r.Ok? {
        bytesRead := bytesRead + size;
      }
    }
  }

  /** A range that an undisturbed read gets, budget aside. */
  predicate Readable(file: ReadOnlyFile, offset: nat, size: nat) {
    offset + size <= file.ReadLimit() && offset + size <= U64_MAX && (size == 0 || offset + size <= |file.content|)
  }

  /** All requests beyond the earlier ones lie in the range. */
  ghost predicate Within(earlier: seq<Request>, asked: seq<Request>, offset: nat, size: nat) {
    earlier <= asked &&
    forall i :: |earlier| <= i < |asked| ==> offset <= asked[i].offset && asked[i].offset + asked[i].size <= offset + size
  }

  lemma FetchedMore(asked: seq<Request>, request: Request)
    ensures Fetched(asked + [request]) == Fetched(asked) + request.got
  {
    assert (asked + [request])[..|asked|] == asked;
  }

  /** `size` bytes at `offset`, or the ones that are there. */
  function Slice(content: seq<Byte>, offset: nat, size: nat): seq<Byte> {
    if offset + size <= |content| then content[offset..offset + size]
    else if offset <= |content| then content[offset..]
    else []
  }

  lemma SliceNothing(content: seq<Byte>, offset: nat)
    ensures Slice(content, offset, 0) == []
  {
  }

  lemma SliceJoins(content: seq<Byte>, offset: nat, a: nat, b: nat)
    requires offset + a + b <= |content|
    ensures Slice(content, offset, a) + Slice(content, offset + a, b) == Slice(content, offset, a + b)
  {
  }
}
