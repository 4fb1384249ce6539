/**
 The status record in shared memory: its one writer and its C reader (shmem.c), and its
 Java reader (Status.java).
 */
module Shmem {
  import opened Crc32

  const RECORD_SIZE := 56
  const BDATE_SIZE := 24
  const SUFFIX_SIZE := 8

  /** `afrd_shmem_t`, a packed structure. */
  datatype Record = Record(
    crc: Word, size: nat, enabled: bool, switched: bool, blackened: bool,
    verMajor: Byte, verMinor: Byte, verMicro: Byte, bdate: seq<Byte>,
    currentHz: Word, originalHz: Word, suffix: seq<Byte>, crcCopy: Word)
  {
    predicate Valid() { size == RECORD_SIZE && |bdate| == BDATE_SIZE && |suffix| == SUFFIX_SIZE }
  }

  // ---------- bytes of a record ----------

  function Le32(w: Word): seq<Byte> { [w % 256, w / 256 % 256, w / 256 / 256 % 256, w / 256 / 256 / 256] }

  function GetLe32(s: seq<Byte>, at: nat): Word
    requires at + 4 <= |s|
  {
    var b0: int, b1: int, b2: int, b3: int := s[at], s[at + 1], s[at + 2], s[at + 3];
    b0 + 256 * (b1 + 256 * (b2 + 256 * b3))
  }

  function GetLe16(s: seq<Byte>, at: nat): nat
    requires at + 2 <= |s|
  {
    var b0: int, b1: int := s[at], s[at + 1];
    b0 + 256 * b1
  }

  lemma Le32RoundTrip(w: Word)
    ensures GetLe32(Le32(w), 0) == w
  {
  }

  function Flag(b: bool): Byte { if b then 1 else 0 }

  /** Everything that the checksum covers. */
  function Payload(r: Record): (p: seq<Byte>)
    requires r.Valid()
    ensures |p| == RECORD_SIZE - 8
  {
    [r.size % 256, r.size / 256, Flag(r.enabled), Flag(r.switched), Flag(r.blackened),
     r.verMajor, r.verMinor, r.verMicro]
    + r.bdate + Le32(r.currentHz) + Le32(r.originalHz) + r.suffix
  }

  function Bytes(r: Record): (s: seq<Byte>)
    requires r.Valid()
    ensures |s| == RECORD_SIZE
  {
    Le32(r.crc) + Payload(r) + Le32(r.crcCopy)
  }

  function Sealed(r: Record): Record
    requires r.Valid()
  {
    r.(crc := Crc(Payload(r)), crcCopy := Crc(Payload(r)))
  }

  /** The record that a run of bytes stands for. */
  function Parse(s: seq<Byte>): Record
    requires |s| == RECORD_SIZE
  {
    Record(GetLe32(s, 0), GetLe16(s, 4), s[6] != 0, s[7] != 0, s[8] != 0, s[9], s[10], s[11], s[12..36],
           GetLe32(s, 36), GetLe32(s, 40), s[44..52], GetLe32(s, 52))
  }

  lemma ParseInvertsBytes(r: Record)
    requires r.Valid()
    ensures Parse(Bytes(r)) == r
  {
    var s := Bytes(r);
    Le32RoundTrip(r.crc);
    Le32RoundTrip(r.currentHz);
    Le32RoundTrip(r.originalHz);
    Le32RoundTrip(r.crcCopy);
    assert s[0..4] == Le32(r.crc) && s[52..56] == Le32(r.crcCopy);
    assert s[12..36] == r.bdate && s[44..52] == r.suffix;
    assert s[36..40] == Le32(r.currentHz) && s[40..44] == Le32(r.originalHz);
    assert s[4] == r.size % 256 && s[5] == r.size / 256;
  }

  /** Where every field is: the packed structure of afrd.h, little-endian. */
  lemma Layout(r: Record)
    requires r.Valid()
    ensures var s := Bytes(r);
            && s[0..4] == Le32(r.crc) && s[4] == 56 && s[5] == 0
            && s[6] == Flag(r.enabled) && s[7] == Flag(r.switched) && s[8] == Flag(r.blackened)
            && s[9] == r.verMajor && s[10] == r.verMinor && s[11] == r.verMicro && s[12..36] == r.bdate
            && s[36..40] == Le32(r.currentHz) && s[40..44] == Le32(r.originalHz) && s[44..52] == r.suffix
            && s[52..56] == Le32(r.crcCopy)
  {
  }

  lemma LittleEndian(w: Word)
    ensures var b := Le32(w);
            var b0: int, b1: int, b2: int, b3: int := b[0], b[1], b[2], b[3];
            b0 + 0x100 * b1 + 0x1_0000 * b2 + 0x100_0000 * b3 == w
  {
    Le32RoundTrip(w);
  }

  /** Both copies of the checksum agree with each other and with what they cover. */
  predicate Consistent(s: seq<Byte>)
    requires |s| >= 8
  {
    GetLe32(s, 0) == GetLe32(s, |s| - 4) && GetLe32(s, 0) == Crc(s[4..|s| - 4])
  }

  /** What the C reader accepts. */
  predicate Accepted(s: seq<Byte>) {
    |s| == RECORD_SIZE && GetLe16(s, 4) == RECORD_SIZE && Consistent(s)
  }

  /** `memcpy`. */
  method Copy(source: seq<Byte>, target: array<Byte>)
    requires |source| == target.Length
    modifies target
    ensures target[..] == source
  {
    for i := 0 to |source|
      invariant target[..i] == source[..i]
    {
      target[i] := source[i];
    }
  }

  /** `shmem_update` and `shmem_read`; the shared memory is the array `shm`. */
  class Shared {
    var stats: Record
    const table: array<Word>
    const shm: array<Byte>

    ghost predicate Valid()
      reads this, table
    {
      stats.Valid() && IsTable(table[..]) && shm.Length == RECORD_SIZE
    }

    constructor (stats: Record, shm: array<Byte>)
      requires stats.Valid() && shm.Length == RECORD_SIZE
      ensures Valid() && this.stats == stats && this.shm == shm && fresh(table)
    {
      this.stats := stats;
      this.shm := shm;
      table := new Word[256];
      new;
      InitTable(table);
    }

    method Update()
      requires Valid()
      modifies this, shm
      ensures Valid() && stats == Sealed(old(stats)) && shm[..] == Bytes(stats)
    {
      var crc := Crc32.Update(table, START, Payload(stats));
      crc := Finish(crc);
      stats := stats.(crc := crc, crcCopy := crc);
      Copy(Bytes(stats), shm);
    }

    method Read() returns (ok: bool)
      requires IsTable(table[..]) && shm.Length == RECORD_SIZE
      modifies this
      ensures ok == Accepted(shm[..])
      ensures stats == if GetLe16(shm[..], 4) == RECORD_SIZE then Parse(shm[..]) else old(stats)
    {
      var bytes := shm[..];
      if GetLe16(bytes, 4) != RECORD_SIZE { return false; }
      stats := Parse(bytes);
      if stats.crc != stats.crcCopy { return false; }
      var crc := Crc32.Update(table, START, bytes[4..52]);
      ok := stats.crc == Finish(crc);
    }
  }

  // ---------- the Java reader ----------

  function Signed8(b: Byte): int { if b < 128 then b else b - 256 }
  function Signed16(n: nat): int { if n < 0x8000 then n else n - 0x1_0000 }
  function Signed32(w: Word): int { if w < 0x8000_0000 then w else w - WORD }

  /** The bytes before the first NUL. */
  function UpToNul(s: seq<Byte>): seq<Byte> {
    if s == [] || s[0] == 0 then [] else [s[0]] + UpToNul(s[1..])
  }

  datatype Info = Info(
    enabled: bool, modified: bool, blackened: bool, versionHi: int, versionLo: int, versionRev: int,
    buildDate: seq<Byte>, currentHz: int, originalHz: int, suffix: seq<Byte>)

  const OLD_SIZE := 48

  function InfoOf(s: seq<Byte>): Info
    requires |s| >= OLD_SIZE
  {
    Info(s[6] != 0, s[7] != 0, s[8] != 0, Signed8(s[9]), Signed8(s[10]), Signed8(s[11]),
         UpToNul(s[12..36]), Signed32(GetLe32(s, 36)), Signed32(GetLe32(s, 40)),
         if |s| >= 52 then UpToNul(s[44..52]) else [])
  }

  /** `Status`.  The mapped file is `shm`, null when it is closed. */
  class StatusReader {
    var shm: array?<Byte>
    var lastStamp: Word
    var lastStampValid: bool
    var info: Info

    constructor (shm: array?<Byte>, info: Info)
      ensures this.shm == shm && this.info == info && !lastStampValid
    {
      this.shm, this.info, lastStampValid := shm, info, false;
      lastStamp := 0;
    }

    /** A file holds a whole record, perhaps of an older version; the source reads beyond a shorter one. */
    static predicate Readable(file: array?<Byte>) { file != null ==> file.Length >= OLD_SIZE }

    method Close()
      modifies this
      ensures shm == null && !lastStampValid && info == old(info) && lastStamp == old(lastStamp)
    {
      lastStampValid := false;
      shm := null;
    }

    method CStr(data: array<Byte>, ofs: nat, maxlen: nat) returns (s: seq<Byte>)
      requires ofs + maxlen <= data.Length
      ensures s == UpToNul(data[ofs..ofs + maxlen])
    {
      var cur := ofs;
      var end := ofs + maxlen;
      ghost var field := data[ofs..end];
      while cur < end && data[cur] != 0
        invariant ofs <= cur <= end
        invariant UpToNul(field) == data[ofs..cur] + UpToNul(field[cur - ofs..])
      {
        assert field[cur - ofs..][1..] == field[cur + 1 - ofs..];
        assert data[ofs..cur + 1] == data[ofs..cur] + [data[cur]];
        cur := cur + 1;
      }
      s := data[ofs..cur];
    }

    /** The size field, as the short that Java reads, agrees with the length of the file. */
    method SizeAgrees() returns (agrees: bool)
      requires shm != null && shm.Length >= OLD_SIZE
      ensures agrees == (Signed16(GetLe16(shm[..], 4)) == shm.Length)
    {
      agrees := Signed16(GetLe16(shm[..], 4)) == shm.Length;
    }

    static predicate GoodSize(file: seq<Byte>)
      requires |file| >= OLD_SIZE
    {
      Signed16(GetLe16(file, 4)) == |file|
    }

    /** `reopened` is the file found if the old one has to be closed. */
    method Refresh(reopened: array?<Byte>) returns (ok: bool)
      requires Readable(shm) && Readable(reopened)
      modifies this
      ensures ok ==> shm != null && shm.Length >= OLD_SIZE && Signed16(GetLe16(shm[..], 4)) == shm.Length
                     && Consistent(shm[..]) && info == InfoOf(shm[..])
                     && lastStampValid && lastStamp == GetLe32(shm[..], 0)
      ensures !ok ==> info == old(info)
      ensures var was := old(shm);
              var same := was == null || (old(lastStampValid) && old(lastStamp) == GetLe32(was[..], 0));
              var file := if same || GoodSize(was[..]) then was else reopened;
              var open := file != null && (same || GoodSize(file[..]));
              && shm == (if open then file else null)
              && (ok <==> !same && open && Consistent(file[..]))
              && (!ok ==> lastStampValid == (old(lastStampValid) && (same || GoodSize(was[..]))))
    {
      if shm == null { return false; }
      if lastStampValid && lastStamp == GetLe32(shm[..], 0) { return false; }
      var agrees := SizeAgrees();
      if !agrees {
        Close();
        shm := reopened;
        if shm == null { return false; }
        agrees := SizeAgrees();
        if !agrees {
          Close();
          return false;
        }
      }
      ok := Load(shm);
    }

    /** The part of `refresh` that works on a copy of the shared data. */
    method Load(file: array<Byte>) returns (ok: bool)
      requires file.Length >= OLD_SIZE
      modifies this
      ensures shm == old(shm) && ok == Consistent(file[..])
      ensures ok ==> info == InfoOf(file[..]) && lastStampValid && lastStamp == GetLe32(file[..], 0)
      ensures !ok ==> info == old(info) && lastStampValid == old(lastStampValid) && lastStamp == old(lastStamp)
    {
      var size := file.Length;
      var data := new Byte[size](_ => 0);
      Copy(file[..], data);
      ok := Check(data);
      if ok { Decode(data); }
    }

    method Check(data: array<Byte>) returns (ok: bool)
      requires data.Length >= OLD_SIZE
      ensures ok == Consistent(data[..])
    {
      var stamp, size := GetLe32(data[..], 0), data.Length;
      if stamp != GetLe32(data[..], size - 4) { return false; }
      assert data[4..size - 4] == data[..][4..size - 4];
      ok := stamp == Crc(data[4..size - 4]);
    }

    method Decode(data: array<Byte>)
      requires data.Length >= OLD_SIZE
      modifies this
      ensures shm == old(shm)
      ensures info == InfoOf(data[..]) && lastStampValid && lastStamp == GetLe32(data[..], 0)
    {
      lastStamp := GetLe32(data[..], 0);
      lastStampValid := true;
      var buildDate := CStr(data, 12, 24);
      var suffix: seq<Byte> := [];
      if data.Length >= 44 + 8 {
        suffix := CStr(data, 44, 8);
      }
      assert data[12..36] == data[..][12..36];
      assert data.Length >= 52 ==> data[44..52] == data[..][44..52];
      info := Info(data[6] != 0, data[7] != 0, data[8] != 0,
                   Signed8(data[9]), Signed8(data[10]), Signed8(data[11]),
                   buildDate, Signed32(GetLe32(data[..], 36)), Signed32(GetLe32(data[..], 40)), suffix);
    }
  }

  // ---------- writer and readers agree ----------

  lemma PublishedIsAccepted(r: Record)
    requires r.Valid()
    ensures Accepted(Bytes(Sealed(r)))
    ensures Signed16(GetLe16(Bytes(Sealed(r)), 4)) == |Bytes(Sealed(r))|
  {
    var q := Sealed(r);
    var s := Bytes(q);
    ParseInvertsBytes(q);
    assert s[4..52] == Payload(q);
    assert Payload(q) == Payload(r);
  }

  /** `strncpy`. */
  function Padded(s: seq<Byte>, n: nat): seq<Byte> {
    if |s| >= n then s[..n] else s + seq(n - |s|, i => 0)
  }

  lemma PaddedTail(s: seq<Byte>, n: nat)
    requires n > 0 && s != []
    ensures Padded(s, n) == [s[0]] + Padded(s[1..], n - 1)
    ensures |s| >= n ==> s[..n] == [s[0]] + s[1..][..n - 1]
  {
  }

  lemma {:induction false} PaddedReadsBack(s: seq<Byte>, n: nat)
    requires 0 !in s
    ensures |Padded(s, n)| == n && UpToNul(Padded(s, n)) == if |s| >= n then s[..n] else s
    decreases n
  {
    if n > 0 && s != [] {
      var tail := Padded(s[1..], n - 1);
      PaddedTail(s, n);
      PaddedReadsBack(s[1..], n - 1);
      assert s[0] in s;
      assert ([s[0]] + tail)[1..] == tail;
    }
  }

  lemma NumbersAreRead(r: Record, i: Info)
    requires r.Valid() && i == InfoOf(Bytes(Sealed(r)))
    ensures i.enabled == r.enabled && i.modified == r.switched && i.blackened == r.blackened
    ensures i.versionHi == Signed8(r.verMajor) && i.versionLo == Signed8(r.verMinor)
    ensures i.versionRev == Signed8(r.verMicro)
    ensures i.currentHz == Signed32(r.currentHz) && i.originalHz == Signed32(r.originalHz)
  {
    ParseInvertsBytes(Sealed(r));
  }

  lemma StringsAreRead(r: Record, i: Info)
    requires r.Valid() && i == InfoOf(Bytes(Sealed(r)))
    ensures i.buildDate == UpToNul(r.bdate) && i.suffix == UpToNul(r.suffix)
  {
    var s := Bytes(Sealed(r));
    ParseInvertsBytes(Sealed(r));
    assert Parse(s).bdate == s[12..36] && Parse(s).suffix == s[44..52];
  }

  /** The Java reader decodes every field of a published record to the value written: strings up to the
      size of their field, and numbers exactly as long as they do not reach Java's sign bit. */
  lemma JavaReadsWhatWasWritten(r: Record, bdate: seq<Byte>, suffix: seq<Byte>)
    requires r.Valid() && 0 !in bdate && 0 !in suffix && |bdate| <= BDATE_SIZE && |suffix| <= SUFFIX_SIZE
    requires r.bdate == Padded(bdate, BDATE_SIZE) && r.suffix == Padded(suffix, SUFFIX_SIZE)
    ensures var i := InfoOf(Bytes(Sealed(r)));
            && i.enabled == r.enabled && i.modified == r.switched && i.blackened == r.blackened
            && i.buildDate == bdate && i.suffix == suffix
            && (i.versionHi == r.verMajor <==> r.verMajor < 128)
            && (i.versionLo == r.verMinor <==> r.verMinor < 128)
            && (i.versionRev == r.verMicro <==> r.verMicro < 128)
            && (i.currentHz == r.currentHz <==> r.currentHz < 0x8000_0000)
            && (i.originalHz == r.originalHz <==> r.originalHz < 0x8000_0000)
  {
    var i := InfoOf(Bytes(Sealed(r)));
    NumbersAreRead(r, i);
    StringsAreRead(r, i);
    PaddedReadsBack(bdate, BDATE_SIZE);
    PaddedReadsBack(suffix, SUFFIX_SIZE);
    assert bdate[..|bdate|] == bdate && suffix[..|suffix|] == suffix;
  }

  lemma Le32Injective(s: seq<Byte>, t: seq<Byte>, at: nat)
    requires at + 4 <= |s| == |t| && GetLe32(s, at) == GetLe32(t, at)
    ensures forall i :: at <= i < at + 4 ==> s[i] == t[i]
  {
    var a1: nat, a2: nat, a3: nat := s[at + 1], s[at + 2], s[at + 3];
    var b1: nat, b2: nat, b3: nat := t[at + 1], t[at + 2], t[at + 3];
    Digit(s[at], t[at], a1 + 256 * (a2 + 256 * a3), b1 + 256 * (b2 + 256 * b3));
    Digit(s[at + 1], t[at + 1], a2 + 256 * a3, b2 + 256 * b3);
    Digit(s[at + 2], t[at + 2], a3, b3);
  }

  lemma Digit(a: Byte, b: Byte, x: nat, y: nat)
    requires a + 256 * x == b + 256 * y
    ensures a == b && x == y
  {
  }

  /** What a reader copies while the writer goes from one record to the next: the first `p` bytes are old. */
  function Torn(a: Record, b: Record, p: nat): seq<Byte>
    requires a.Valid() && b.Valid() && p <= RECORD_SIZE
  {
    Bytes(Sealed(a))[..p] + Bytes(Sealed(b))[p..]
  }

  /** The two copies of the checksum, one at either end, give such a copy away: it is consistent only if it is one of
      the two records, or their checksums are equal. */
  lemma TornIsNoticed(a: Record, b: Record, p: nat)
    requires a.Valid() && b.Valid() && p <= RECORD_SIZE && Consistent(Torn(a, b, p))
    ensures || Torn(a, b, p) == Bytes(Sealed(a)) || Torn(a, b, p) == Bytes(Sealed(b))
            || Crc(Payload(a)) == Crc(Payload(b))
  {
    var s, x, y := Torn(a, b, p), Bytes(Sealed(a)), Bytes(Sealed(b));
    SealedWords(a);
    SealedWords(b);
    if p <= 4 {
      TornAtStart(s, y, p);
    } else if p >= 52 {
      TornAtEnd(s, x, p);
    } else {
      assert GetLe32(s, 0) == GetLe32(x, 0) && GetLe32(s, 52) == GetLe32(y, 52);
    }
  }

  lemma SealedWords(r: Record)
    requires r.Valid()
    ensures var s := Bytes(Sealed(r));
            GetLe32(s, 0) == GetLe32(s, 52) == Crc(Payload(r)) && s[4..52] == Payload(r)
  {
    ParseInvertsBytes(Sealed(r));
    assert Parse(Bytes(Sealed(r))) == Sealed(r);
  }

  lemma TornAtStart(s: seq<Byte>, y: seq<Byte>, p: nat)
    requires |s| == |y| == RECORD_SIZE && p <= 4 && s[p..] == y[p..] && Consistent(s) && Consistent(y)
    ensures s == y
  {
    assert forall i :: 4 <= i < RECORD_SIZE ==> s[i] == s[p..][i - p] == y[i];
    assert s[4..52] == y[4..52] && GetLe32(s, 52) == GetLe32(y, 52);
    SameParts(s, y);
  }

  lemma TornAtEnd(s: seq<Byte>, x: seq<Byte>, p: nat)
    requires |s| == |x| == RECORD_SIZE && 52 <= p <= RECORD_SIZE && s[..p] == x[..p] && Consistent(s) && Consistent(x)
    ensures s == x
  {
    assert forall i :: 0 <= i < 52 ==> s[i] == s[..p][i] == x[i];
    assert s[4..52] == x[4..52] && GetLe32(s, 0) == GetLe32(x, 0);
    SameParts(s, x);
  }

  /** Damage confined to any four consecutive bytes of a published record, checksums included, is
      noticed by both readers. */
  lemma DamageIsNoticed(r: Record, s: seq<Byte>, at: nat)
    requires r.Valid() && |s| == RECORD_SIZE
    requires s != Bytes(Sealed(r))
    requires forall i :: 0 <= i < RECORD_SIZE && !(at <= i < at + 4) ==> s[i] == Bytes(Sealed(r))[i]
    ensures !Consistent(s)
  {
    var t := Bytes(Sealed(r));
    PublishedIsAccepted(r);
    if s[4..52] != t[4..52] {
      PayloadDamage(s, t, at);
    } else if GetLe32(s, 0) == GetLe32(t, 0) && GetLe32(s, 52) == GetLe32(t, 52) {
      SameParts(s, t);
    }
  }

  lemma PayloadDamage(s: seq<Byte>, t: seq<Byte>, at: nat)
    requires |s| == |t| == RECORD_SIZE && s[4..52] != t[4..52]
    requires forall i :: 0 <= i < RECORD_SIZE && !(at <= i < at + 4) ==> s[i] == t[i]
    ensures Crc(s[4..52]) != Crc(t[4..52])
  {
    var p, q := s[4..52], t[4..52];
    forall i | 0 <= i < 48 && !(at <= i + 4 < at + 4) ensures p[i] == q[i] {
      assert p[i] == s[i + 4] && q[i] == t[i + 4];
    }
    Shifted(p, q, at);
  }

  /** Nothing lies outside the payload and the two checksums. */
  lemma SameParts(s: seq<Byte>, t: seq<Byte>)
    requires |s| == |t| == RECORD_SIZE && s[4..52] == t[4..52]
    requires GetLe32(s, 0) == GetLe32(t, 0) && GetLe32(s, 52) == GetLe32(t, 52)
    ensures s == t
  {
    Le32Injective(s, t, 0);
    Le32Injective(s, t, 52);
    forall i | 0 <= i < RECORD_SIZE ensures s[i] == t[i] {
      if 4 <= i < 52 { assert s[i] == s[4..52][i - 4] && t[i] == t[4..52][i - 4]; }
    }
  }

  lemma Shifted(p: seq<Byte>, q: seq<Byte>, at: nat)
    requires |p| == |q| && p != q
    requires forall i :: 0 <= i < |p| && !(at <= i + 4 < at + 4) ==> p[i] == q[i]
    ensures Crc(p) != Crc(q)
  {
    BurstDetected(p, q, if at >= 4 then at - 4 else 0);
  }
}
