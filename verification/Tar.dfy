/** The ustar reader of the boot archive (kernel/src/fs/tar.rs), and a writer it undoes. */
module Tar {
  import opened Basics

  const BLOCK: nat := 512

  // ---- UTF-8 ----

  predicate Cont(b: Byte) { 0x80 <= b <= 0xBF }

  /** The length of the UTF-8 sequence at the start of `s`, or 0 when there is none. */
  function CharLength(s: seq<Byte>): (n: nat)
    requires s != []
    ensures n <= |s|
  {
    if s[0] <= 0x7F then 1
    else if 0xC2 <= s[0] <= 0xDF && |s| >= 2 && Cont(s[1]) then 2
    else if |s| >= 3 && Cont(s[2])
            && ((s[0] == 0xE0 && 0xA0 <= s[1] <= 0xBF) || (0xE1 <= s[0] <= 0xEC && Cont(s[1]))
                || (s[0] == 0xED && 0x80 <= s[1] <= 0x9F) || (0xEE <= s[0] <= 0xEF && Cont(s[1]))) then 3
    else if |s| >= 4 && Cont(s[2]) && Cont(s[3])
            && ((s[0] == 0xF0 && 0x90 <= s[1] <= 0xBF) || (0xF1 <= s[0] <= 0xF3 && Cont(s[1]))
                || (s[0] == 0xF4 && 0x80 <= s[1] <= 0x8F)) then 4
    else 0
  }

  predicate ValidUtf8(s: seq<Byte>)
    decreases |s|
  {
    s == [] || (CharLength(s) > 0 && ValidUtf8(s[CharLength(s)..]))
  }

  /** A Unicode scalar value. */
  type Scalar = c: int | 0 <= c < 0xD800 || 0xE000 <= c < 0x11_0000

  /** The encoding of section 3 of RFC 3629. */
  function EncodeChar(c: Scalar): (e: seq<Byte>)
    ensures 1 <= |e| <= 4
  {
    if c < 0x80 then [c]
    else if c < 0x800 then [0xC0 + c / 64, 0x80 + c % 64]
    else if c < 0x1_0000 then [0xE0 + c / 4096, 0x80 + c / 64 % 64, 0x80 + c % 64]
    else [0xF0 + c / 262144, 0x80 + c / 4096 % 64, 0x80 + c / 64 % 64, 0x80 + c % 64]
  }

  function Encode(cs: seq<Scalar>): seq<Byte> {
    if cs == [] then [] else EncodeChar(cs[0]) + Encode(cs[1..])
  }

  /** The bytes are the encoding of some text. */
  ghost predicate IsText(s: seq<Byte>) { exists cs: seq<Scalar> :: Encode(cs) == s }

  /** An encoded character is recognised with its length, whatever follows it. */
  lemma EncodedLength(c: Scalar, more: seq<Byte>)
    ensures CharLength(EncodeChar(c) + more) == |EncodeChar(c)|
  {
    var s := EncodeChar(c) + more;
    assert |EncodeChar(c)| == 1 ==> s[0] == c;
  }

  /** Numbers of two, three and four digits of six bits each. */
  lemma Digits2(a: nat, b: nat) returns (c: nat)
    requires b < 64
    ensures c == a * 64 + b && c / 64 == a && c % 64 == b
  {
    c := a * 64 + b;
  }

  lemma Digits3(a: nat, b: nat, d: nat) returns (c: nat)
    requires b < 64 && d < 64
    ensures c == a * 4096 + b * 64 + d && c / 4096 == a && c / 64 % 64 == b && c % 64 == d
  {
    c := a * 4096 + b * 64 + d;
    assert c / 64 == a * 64 + b;
  }

  lemma Digits4(a: nat, b: nat, d: nat, e: nat) returns (c: nat)
    requires b < 64 && d < 64 && e < 64
    ensures c == a * 262144 + b * 4096 + d * 64 + e
    ensures c / 262144 == a && c / 4096 % 64 == b && c / 64 % 64 == d && c % 64 == e
  {
    c := a * 262144 + b * 4096 + d * 64 + e;
    assert c / 64 == a * 4096 + b * 64 + d;
    assert c / 4096 == a * 64 + b;
  }

  /** What is recognised is an encoded character. */
  lemma RecognisedChar(s: seq<Byte>) returns (c: Scalar)
    requires s != [] && CharLength(s) > 0
    ensures EncodeChar(c) == s[..CharLength(s)]
  {
    var n, lead := CharLength(s), s[0] as int;
    if n == 1 {
      c := lead;
    } else if n == 2 {
      c := Digits2(lead - 0xC0, s[1] as int - 0x80);
    } else if n == 3 {
      c := Digits3(lead - 0xE0, s[1] as int - 0x80, s[2] as int - 0x80);
    } else {
      c := Digits4(lead - 0xF0, s[1] as int - 0x80, s[2] as int - 0x80, s[3] as int - 0x80);
    }
  }

  lemma {:induction false} TextIsValid(cs: seq<Scalar>)
    ensures ValidUtf8(Encode(cs))
    decreases |cs|
  {
    if cs != [] {
      EncodedLength(cs[0], Encode(cs[1..]));
      TextIsValid(cs[1..]);
      assert Encode(cs)[|EncodeChar(cs[0])|..] == Encode(cs[1..]);
    }
  }

  lemma {:induction false} ValidIsText(s: seq<Byte>) returns (cs: seq<Scalar>)
    requires ValidUtf8(s)
    ensures Encode(cs) == s
    decreases |s|
  {
    cs := [];
    if s != [] {
      var c := RecognisedChar(s);
      var more := ValidIsText(s[CharLength(s)..]);
      cs := [c] + more;
      assert cs[1..] == more;
    }
  }

  /** The recogniser accepts exactly the encodings of texts. */
  lemma Utf8Exact(s: seq<Byte>)
    ensures ValidUtf8(s) <==> IsText(s)
  {
    if ValidUtf8(s) {
      var cs := ValidIsText(s);
    }
    if cs: seq<Scalar> :| Encode(cs) == s {
      TextIsValid(cs);
    }
  }

  /** A header name that is not UTF-8 is read as the empty name. */
  function Decoded(name: seq<Byte>): seq<Byte> {
    if ValidUtf8(name) then name else []
  }

  // ---- the reader ----

  /** The name ends at the first zero byte or at its full width. */
  function NameLength(header: seq<Byte>, n: nat): nat
    requires n <= 100 <= |header|
    decreases 100 - n
  {
    if n < 100 && header[n] != 0 then NameLength(header, n + 1) else n
  }

  lemma {:induction false} NameLengthBound(header: seq<Byte>, n: nat)
    requires n <= 100 <= |header|
    ensures n <= NameLength(header, n) <= 100
    decreases 100 - n
  {
    if n < 100 && header[n] != 0 {
      NameLengthBound(header, n + 1);
    }
  }

  /** Octal digits up to the first NUL or space; other bytes are skipped. */
  function Octal(bytes: seq<Byte>, acc: nat): nat {
    if bytes == [] then acc
    else if 48 <= bytes[0] <= 55 then Octal(bytes[1..], acc * 8 + (bytes[0] - 48))
    else if bytes[0] == 0 || bytes[0] == 32 then acc
    else Octal(bytes[1..], acc)
  }

  predicate IsRegular(typeFlag: Byte) { typeFlag == 48 || typeFlag == 0 }

  function Blocks(size: nat): nat { (size + 511) / 512 }

  // ---- the fields of a header ----

  function HeaderAt(data: seq<Byte>, offset: nat): (h: seq<Byte>)
    requires offset + BLOCK <= |data|
    ensures |h| == BLOCK
  {
    data[offset..offset + BLOCK]
  }

  function NameIn(header: seq<Byte>): seq<Byte>
    requires |header| == BLOCK
  {
    NameLengthBound(header, 0);
    header[..NameLength(header, 0)]
  }

  function SizeIn(header: seq<Byte>): nat
    requires |header| == BLOCK
  {
    Octal(header[124..136], 0)
  }

  /** What the reader finds from `offset` on. */
  function Find(data: seq<Byte>, offset: nat, name: seq<Byte>): Option<seq<Byte>>
    decreases if offset <= |data| then |data| - offset else 0
  {
    if offset + BLOCK > |data| || data[offset] == 0 then None
    else
      var header := HeaderAt(data, offset);
      var size := SizeIn(header);
      if IsRegular(header[156]) && Decoded(NameIn(header)) == name then
        if offset + BLOCK + size <= |data| then Some(data[offset + BLOCK..offset + BLOCK + size]) else None
      else Find(data, offset + BLOCK + Blocks(size) * BLOCK, name)
  }

  /** The reader at one header. */
  lemma FindHere(data: seq<Byte>, offset: nat, name: seq<Byte>, size: nat, found: bool)
    requires offset + BLOCK <= |data| && data[offset] != 0 && size == SizeIn(HeaderAt(data, offset))
    requires found == (IsRegular(HeaderAt(data, offset)[156]) && Decoded(NameIn(HeaderAt(data, offset))) == name)
    ensures Find(data, offset, name)
         == if !found then Find(data, offset + BLOCK + Blocks(size) * BLOCK, name)
            else if offset + BLOCK + size <= |data| then Some(data[offset + BLOCK..offset + BLOCK + size]) else None
  {
  }

  method ParseName(header: seq<Byte>) returns (n: nat)
    requires |header| == BLOCK
    ensures n == NameLength(header, 0)
    ensures n <= 100 && 0 !in header[..n] && (n < 100 ==> header[n] == 0)
  {
    n := 0;
    while n < 100 && header[n] != 0
      invariant n <= 100 && 0 !in header[..n] && NameLength(header, 0) == NameLength(header, n)
    {
      n := n + 1;
    }
  }

  method ParseOctal(bytes: seq<Byte>) returns (size: nat)
    ensures size == Octal(bytes, 0)
  {
    size := 0;
    var i := 0;
    while i < |bytes|
      invariant i <= |bytes| && Octal(bytes, 0) == Octal(bytes[i..], size)
    {
      var b := bytes[i];
      assert bytes[i..][1..] == bytes[i + 1..];
      if 48 <= b <= 55 {
        size := size * 8 + (b - 48);
      } else if b == 0 || b == 32 {
        return;
      }
      i := i + 1;
    }
  }

  /** The size in a header, and whether it is that of a regular file of the given name. */
  method ParseHeader(header: seq<Byte>, name: seq<Byte>) returns (size: nat, found: bool)
    requires |header| == BLOCK
    ensures size == SizeIn(header) && found == (IsRegular(header[156]) && Decoded(NameIn(header)) == name)
  {
    var n := ParseName(header);
    size := ParseOctal(header[124..136]);
    found := IsRegular(header[156]) && Decoded(header[..n]) == name;
  }

  /** One round of the loop: the search ends here, or goes on at `next`. */
  method ReadMember(data: seq<Byte>, offset: nat, name: seq<Byte>)
    returns (done: bool, file: Option<seq<Byte>>, next: nat)
    requires offset + BLOCK <= |data|
    ensures next > offset
    ensures Find(data, offset, name) == if done then file else Find(data, next, name)
  {
    done, file, next := true, None, offset + BLOCK;
    if data[offset] == 0 {
      return;
    }
    var size, found := ParseHeader(HeaderAt(data, offset), name);
    FindHere(data, offset, name, size, found);
    if found {
      if offset + BLOCK + size <= |data| {
        file := Some(data[offset + BLOCK..offset + BLOCK + size]);
      }
    } else {
      done, next := false, offset + BLOCK + Blocks(size) * BLOCK;
    }
  }

  /** The reader itself: it stays within the data on every byte string and ends. */
  method FindFile(data: seq<Byte>, name: seq<Byte>) returns (file: Option<seq<Byte>>)
    ensures file == Find(data, 0, name)
  {
    ghost var sought := Find(data, 0, name);
    var offset, done := 0, false;
    while offset + BLOCK <= |data|
      invariant sought == Find(data, offset, name)
      decreases |data| - offset
    {
      done, file, offset := ReadMember(data, offset, name);
      if done {
        return;
      }
    }
    file := None;
  }

  // ---- the writer ----

  /** A file with the bytes the reader does not look at left arbitrary: in the header, and in what fills the contents
      up to whole blocks. */
  datatype File = File(name: seq<Byte>, content: seq<Byte>, typeFlag: Byte, sizeEnd: Byte,
                       meta: seq<Byte>, middle: seq<Byte>, rest: seq<Byte>, padding: seq<Byte>)

  function Pow8(k: nat): (r: nat)
    ensures r > 0
  {
    if k == 0 then 1 else 8 * Pow8(k - 1)
  }

  predicate WellFormed(f: File) {
    && 1 <= |f.name| <= 100 && 0 !in f.name
    && |f.content| < Pow8(11) && (f.sizeEnd == 0 || f.sizeEnd == 32)
    && |f.meta| == 24 && |f.middle| == 20 && |f.rest| == 355
    && (|f.content| + |f.padding|) % 512 == 0 && |f.padding| < 512
  }

  function Zeros(n: nat): (z: seq<Byte>)
    ensures |z| == n && forall i :: 0 <= i < n ==> z[i] == 0
  {
    seq(n, _ => 0)
  }

  /** `k` octal digits, most significant first. */
  function Digits(n: nat, k: nat): (d: seq<Byte>)
    ensures |d| == k
  {
    if k == 0 then [] else Digits(n / 8, k - 1) + [48 + n % 8]
  }

  function Header(f: File): (h: seq<Byte>)
    requires WellFormed(f)
    ensures |h| == BLOCK
  {
    f.name + Zeros(100 - |f.name|) + f.meta + (Digits(|f.content|, 11) + [f.sizeEnd]) + f.middle + [f.typeFlag] + f.rest
  }

  function Member(f: File): (e: seq<Byte>)
    requires WellFormed(f)
    ensures |e| == BLOCK + |f.content| + |f.padding|
  {
    Header(f) + f.content + f.padding
  }

  /** The archive is its members one after the other. */
  function Members(files: seq<File>): (ms: seq<seq<Byte>>)
    requires AllWellFormed(files)
    ensures |ms| == |files| && forall i :: 0 <= i < |files| ==> ms[i] == Member(files[i])
  {
    seq(|files|, i requires 0 <= i < |files| => Member(files[i]))
  }

  function Concat(parts: seq<seq<Byte>>): seq<Byte> {
    if parts == [] then [] else parts[0] + Concat(parts[1..])
  }

  function Archive(files: seq<File>): seq<Byte>
    requires AllWellFormed(files)
  {
    Concat(Members(files))
  }

  predicate AllWellFormed(files: seq<File>) {
    forall i :: 0 <= i < |files| ==> WellFormed(files[i])
  }

  /** The file answers to the name: its type flag is the digit 0 or a zero byte, and its name is the one asked for; a
      name that is no text answers to the empty name only. */
  ghost predicate Answers(f: File, name: seq<Byte>) {
    (f.typeFlag == 48 || f.typeFlag == 0) && if IsText(f.name) then f.name == name else name == []
  }

  /** The contents of the file if it answers to the name, else what comes after it. */
  ghost function Pick(f: File, name: seq<Byte>, next: Option<seq<Byte>>): Option<seq<Byte>> {
    if Answers(f, name) then Some(f.content) else next
  }

  /** The contents of the first file that answers to the name. */
  ghost function Expected(files: seq<File>, name: seq<Byte>): Option<seq<Byte>> {
    if files == [] then None else Pick(files[0], name, Expected(files[1..], name))
  }

  /** What ends an archive: less than a block, or a block that starts with zero. */
  predicate EndsArchive(tail: seq<Byte>) { |tail| < BLOCK || tail[0] == 0 }

  // ---- the reader undoes the writer ----

  lemma OctalOne(d: nat, more: seq<Byte>, acc: nat)
    requires d < 8
    ensures Octal([48 + d] + more, acc) == Octal(more, acc * 8 + d)
  {
  }

  lemma OneDigitMore(acc: nat, p: nat, n: nat)
    ensures (acc * p + n / 8) * 8 + n % 8 == acc * (8 * p) + n
  {
  }

  lemma {:induction false} OctalDigits(n: nat, k: nat, more: seq<Byte>, acc: nat)
    requires n < Pow8(k)
    ensures Octal(Digits(n, k) + more, acc) == Octal(more, acc * Pow8(k) + n)
    decreases k
  {
    if k == 0 {
      assert Digits(n, k) + more == more;
    } else {
      var last := [48 + n % 8];
      OctalDigits(n / 8, k - 1, last + more, acc);
      assert Digits(n, k) + more == Digits(n / 8, k - 1) + (last + more);
      OctalOne(n % 8, more, acc * Pow8(k - 1) + n / 8);
      OneDigitMore(acc, Pow8(k - 1), n);
    }
  }

  /** The number the octal digits among the bytes make. */
  function Number(bytes: seq<Byte>): nat {
    if bytes == [] then 0
    else
      var before, b := Number(bytes[..|bytes| - 1]), bytes[|bytes| - 1];
      if 48 <= b <= 55 then before * 8 + (b - 48) else before
  }

  /** One more byte, for the accumulator and for the number. */
  lemma OctalNext(b: Byte, more: seq<Byte>, acc: nat)
    requires b != 0 && b != 32
    ensures Octal([b] + more, acc) == Octal(more, if 48 <= b <= 55 then acc * 8 + (b - 48) else acc)
  {
    assert ([b] + more)[1..] == more;
  }

  lemma NumberNext(before: seq<Byte>, b: Byte)
    ensures Number(before + [b]) == if 48 <= b <= 55 then Number(before) * 8 + (b - 48) else Number(before)
  {
    assert (before + [b])[..|before|] == before;
  }

  lemma {:induction false} OctalOf(before: seq<Byte>, field: seq<Byte>, end: seq<Byte>)
    requires 0 !in field && 32 !in field && (end == [] || end[0] == 0 || end[0] == 32)
    ensures Octal(field + end, Number(before)) == Number(before + field)
    decreases |field|
  {
    if field == [] {
      assert field + end == end && before + field == before;
    } else {
      var b, rest := field[0], field[1..];
      OctalOf(before + [b], rest, end);
      assert field + end == [b] + (rest + end) && before + field == before + [b] + rest;
      OctalNext(b, rest + end, Number(before));
      NumberNext(before, b);
    }
  }

  /** A field counts up to its first zero byte or space, and there as the number its octal digits make; any other byte
      is passed over. */
  lemma OctalExact(field: seq<Byte>, end: seq<Byte>)
    requires 0 !in field && 32 !in field && (end == [] || end[0] == 0 || end[0] == 32)
    ensures Octal(field + end, 0) == Number(field)
  {
    OctalOf([], field, end);
    assert [] + field == field;
  }

  lemma SizeFieldReads(size: nat, end: Byte)
    requires size < Pow8(11) && (end == 0 || end == 32)
    ensures Octal(Digits(size, 11) + [end], 0) == size
  {
    OctalDigits(size, 11, [end], 0);
    assert Octal([end], size) == size;
  }

  lemma {:induction false} NameStops(header: seq<Byte>, len: nat, n: nat)
    requires n <= len <= 100 <= |header| && (forall i :: 0 <= i < len ==> header[i] != 0)
             && (len < 100 ==> header[len] == 0)
    ensures NameLength(header, n) == len
    decreases len - n
  {
    if n < len {
      NameStops(header, len, n + 1);
    }
  }

  /** The fields of a written header, as the reader sees them. */
  lemma HeaderReads(f: File)
    requires WellFormed(f)
    ensures var h := Header(f);
            h[0] != 0 && NameIn(h) == f.name && SizeIn(h) == |f.content| && h[156] == f.typeFlag
  {
    var h := Header(f);
    forall i | 0 <= i < |f.name| ensures h[i] == f.name[i] != 0 {}
    NameStops(h, |f.name|, 0);
    var front := f.name + Zeros(100 - |f.name|) + f.meta;
    var field := Digits(|f.content|, 11) + [f.sizeEnd];
    assert |front| == 124 && |field| == 12;
    assert h == front + field + (f.middle + [f.typeFlag] + f.rest);
    assert h[124..136] == field;
    SizeFieldReads(|f.content|, f.sizeEnd);
  }

  /** The bytes `m` read as the file `f`. */
  predicate ReadsAs(m: seq<Byte>, f: File) {
    && |m| == BLOCK + Blocks(|f.content|) * BLOCK && m[0] != 0
    && NameIn(HeaderAt(m, 0)) == f.name && SizeIn(HeaderAt(m, 0)) == |f.content|
    && HeaderAt(m, 0)[156] == f.typeFlag && m[BLOCK..BLOCK + |f.content|] == f.content
  }

  /** The reader's rounding is the least multiple of a block that covers the contents. */
  lemma BlocksExact(size: nat, padding: nat)
    requires (size + padding) % 512 == 0 && padding < 512
    ensures Blocks(size) * BLOCK == size + padding
  {
  }

  lemma MemberReads(f: File)
    requires WellFormed(f)
    ensures ReadsAs(Member(f), f)
  {
    HeaderReads(f);
    var h, m := Header(f), Member(f);
    assert HeaderAt(m, 0) == h;
    BlocksExact(|f.content|, |f.padding|);
  }

  /** The reader sees the file `f` at `off`. */
  predicate SeesAt(data: seq<Byte>, off: nat, f: File) {
    && off + BLOCK + |f.content| <= |data| && data[off] != 0
    && NameIn(HeaderAt(data, off)) == f.name && SizeIn(HeaderAt(data, off)) == |f.content|
    && HeaderAt(data, off)[156] == f.typeFlag && data[off + BLOCK..off + BLOCK + |f.content|] == f.content
  }

  /** The file `f` is seen at `off`, and the next header is at `next`. */
  predicate Follows(data: seq<Byte>, off: nat, f: File, next: nat) {
    SeesAt(data, off, f) && next == off + BLOCK + Blocks(|f.content|) * BLOCK
  }

  lemma SeenReads(data: seq<Byte>, off: nat, f: File, next: nat, name: seq<Byte>)
    requires Follows(data, off, f, next)
    ensures Find(data, off, name) == Pick(f, name, Find(data, next, name))
  {
    Utf8Exact(f.name);
    FindHere(data, off, name, |f.content|, IsRegular(f.typeFlag) && Decoded(f.name) == name);
  }

  /** A part in the middle of the data is seen there. */
  lemma PartSeen(data: seq<Byte>, before: seq<Byte>, m: seq<Byte>, f: File, after: seq<Byte>)
    requires ReadsAs(m, f) && data == before + m + after
    ensures SeesAt(data, |before|, f)
  {
    var off := |before|;
    assert HeaderAt(data, off) == HeaderAt(m, 0);
    assert data[off + BLOCK..off + BLOCK + |f.content|] == m[BLOCK..BLOCK + |f.content|];
  }

  lemma {:induction false} ConcatSplit(parts: seq<seq<Byte>>, i: nat)
    requires i <= |parts|
    ensures Concat(parts) == Concat(parts[..i]) + Concat(parts[i..])
    decreases i
  {
    if i == 0 {
      assert parts[..0] == [] && parts[0..] == parts;
    } else {
      ConcatSplit(parts[1..], i - 1);
      assert parts[1..][..i - 1] == parts[..i][1..] && parts[1..][i - 1..] == parts[i..];
    }
  }

  /** Part `i` in its place. */
  lemma PartAt(parts: seq<seq<Byte>>, tail: seq<Byte>, i: nat)
    requires i < |parts|
    ensures Concat(parts) + tail == Concat(parts[..i]) + parts[i] + (Concat(parts[i + 1..]) + tail)
    ensures |Concat(parts[..i + 1])| == |Concat(parts[..i])| + |parts[i]|
  {
    ConcatSplit(parts, i);
    assert parts[i..][1..] == parts[i + 1..];
    ConcatSplit(parts[..i + 1], i);
    assert parts[..i + 1][..i] == parts[..i] && parts[..i + 1][i..] == [parts[i]];
    assert Concat([parts[i]]) == parts[i] + Concat([]);
  }

  /** A reader that at each member returns its contents or goes on to the next finds the first match. */
  lemma {:induction false} FirstMatch(found: seq<Option<seq<Byte>>>, files: seq<File>, name: seq<Byte>)
    requires |found| == |files| + 1 && found[|files|] == None
    requires forall i :: 0 <= i < |files| ==> found[i] == Pick(files[i], name, found[i + 1])
    ensures found[0] == Expected(files, name)
    decreases |files|
  {
    if files != [] {
      forall i | 0 <= i < |files[1..]| ensures found[1..][i] == Pick(files[1..][i], name, found[1..][i + 1]) {
        assert found[i + 1] == Pick(files[i + 1], name, found[i + 2]);
      }
      FirstMatch(found[1..], files[1..], name);
    }
  }

  /** The reader sees the files one after the other, the first at the start, and has `end` bytes behind it then. */
  ghost predicate SeesAll(data: seq<Byte>, offsets: seq<nat>, files: seq<File>, end: nat) {
    && |offsets| == |files| + 1 && offsets[0] == 0 && offsets[|files|] == end
    && (forall i :: 0 <= i < |files| ==> Follows(data, offsets[i], files[i], offsets[i + 1]))
  }

  /** What is found from each of the offsets. */
  ghost function FoundFrom(data: seq<Byte>, offsets: seq<nat>, name: seq<Byte>): (found: seq<Option<seq<Byte>>>)
    ensures |found| == |offsets| && forall i :: 0 <= i < |offsets| ==> found[i] == Find(data, offsets[i], name)
  {
    seq(|offsets|, i requires 0 <= i < |offsets| => Find(data, offsets[i], name))
  }

  lemma SeenInOrder(data: seq<Byte>, offsets: seq<nat>, files: seq<File>, end: nat, name: seq<Byte>)
    requires SeesAll(data, offsets, files, end) && Find(data, end, name).None?
    ensures Find(data, 0, name) == Expected(files, name)
  {
    var found := FoundFrom(data, offsets, name);
    forall i | 0 <= i < |files| ensures found[i] == Pick(files[i], name, found[i + 1]) {
      SeenReads(data, offsets[i], files[i], offsets[i + 1], name);
    }
    FirstMatch(found, files, name);
  }

  /** Parts that read as the files are seen one after the other. */
  lemma LaidOut(parts: seq<seq<Byte>>, files: seq<File>, tail: seq<Byte>) returns (offsets: seq<nat>)
    requires |parts| == |files| && forall i :: 0 <= i < |files| ==> ReadsAs(parts[i], files[i])
    ensures SeesAll(Concat(parts) + tail, offsets, files, |Concat(parts)|)
  {
    var data, n := Concat(parts) + tail, |files|;
    offsets := seq(n + 1, i requires 0 <= i <= n => |Concat(parts[..i])|);
    forall i | 0 <= i < n
      ensures Follows(data, offsets[i], files[i], offsets[i + 1])
    {
      PartAt(parts, tail, i);
      PartSeen(data, Concat(parts[..i]), parts[i], files[i], Concat(parts[i + 1..]) + tail);
    }
    assert parts[..n] == parts && parts[..0] == [];
  }

  /** Files followed by anything in which nothing is found. */
  lemma ArchiveReads(files: seq<File>, tail: seq<Byte>, name: seq<Byte>)
    requires AllWellFormed(files) && Find(Archive(files) + tail, |Archive(files)|, name).None?
    ensures Find(Archive(files) + tail, 0, name) == Expected(files, name)
  {
    forall i | 0 <= i < |files| ensures ReadsAs(Members(files)[i], files[i]) {
      MemberReads(files[i]);
    }
    var offsets := LaidOut(Members(files), files, tail);
    SeenInOrder(Archive(files) + tail, offsets, files, |Archive(files)|, name);
  }

  /** For every archive the writer lays out, whatever stands in the bytes the reader ignores and whatever follows the
      end, a look-up returns exactly the contents of the first file that answers to the name, or nothing. */
  lemma UstarRoundTrip(files: seq<File>, tail: seq<Byte>, name: seq<Byte>)
    requires AllWellFormed(files) && EndsArchive(tail)
    ensures Find(Archive(files) + tail, 0, name) == Expected(files, name)
  {
    ArchiveReads(files, tail, name);
  }

  /** An archive cut off inside the contents of a file reads as if that file were not there. */
  lemma TruncatedArchive(files: seq<File>, f: File, part: seq<Byte>, name: seq<Byte>)
    requires AllWellFormed(files) && WellFormed(f) && part < f.content
    ensures Find(Archive(files) + (Header(f) + part), 0, name) == Expected(files, name)
  {
    var data, off := Archive(files) + (Header(f) + part), |Archive(files)|;
    HeaderReads(f);
    assert HeaderAt(data, off) == Header(f);
    BlocksExact(|f.content|, |f.padding|);
    ArchiveReads(files, Header(f) + part, name);
  }

  lemma {:induction false} FirstAnswer(files: seq<File>, i: nat, name: seq<Byte>)
    requires i < |files| && Answers(files[i], name) && forall j :: 0 <= j < i ==> !Answers(files[j], name)
    ensures Expected(files, name) == Some(files[i].content)
    decreases i
  {
    if i > 0 {
      FirstAnswer(files[1..], i - 1, name);
    }
  }

  lemma {:induction false} NoAnswer(files: seq<File>, name: seq<Byte>)
    requires forall j :: 0 <= j < |files| ==> !Answers(files[j], name)
    ensures Expected(files, name).None?
    decreases |files|
  {
    if files != [] {
      NoAnswer(files[1..], name);
    }
  }

  /** A file with flag 48 or 0 whose name is UTF-8 text is found under that name with its contents if no file before
      it has such a flag and the name; where none has, nothing is found. */
  lemma RegularFilesOnly(files: seq<File>, i: nat, tail: seq<Byte>, name: seq<Byte>)
    requires AllWellFormed(files) && EndsArchive(tail) && i <= |files| && IsText(name) && name != []
    requires forall j :: 0 <= j < i ==> (files[j].typeFlag != 48 && files[j].typeFlag != 0) || files[j].name != name
    ensures i < |files| && files[i].name == name && (files[i].typeFlag == 48 || files[i].typeFlag == 0) ==>
              Find(Archive(files) + tail, 0, name) == Some(files[i].content)
    ensures i == |files| ==> Find(Archive(files) + tail, 0, name).None?
  {
    UstarRoundTrip(files, tail, name);
    if i == |files| {
      NoAnswer(files, name);
    } else if Answers(files[i], name) {
      FirstAnswer(files, i, name);
    }
  }
}
