/**
 The assumption on protobuf that the settlement results rest on can be met: one concrete encoding of archives and
 responses as bytes is lawful and never fails.
 */
module Marshalling {
  import opened Common
  import opened Settlement
  import opened Storage
  import opened OverflowBound
  import Frame

  /** A number as eight bytes. */
  function PutInt(x: int64): Blob {
    Frame.LittleEndian(x - MIN_INT64, 8)
  }

  function PutInts(xs: seq<int64>): Blob {
    if xs == [] then [] else PutInt(xs[0]) + PutInts(xs[1..])
  }

  lemma PutIntInjective(x: int64, y: int64)
    requires PutInt(x) == PutInt(y)
    ensures x == y
  {
    assert Frame.Power256(8) == 0x1_0000_0000_0000_0000 by {
      assert Frame.Power256(4) == 0x1_0000_0000 by { Frame.Powers(); }
      assert Frame.Power256(6) == 0x1_0000_0000_0000;
    }
    Frame.ReadWritten(x - MIN_INT64, 8);
    Frame.ReadWritten(y - MIN_INT64, 8);
  }

  lemma {:induction false} PutIntsInjective(xs: seq<int64>, ys: seq<int64>)
    requires PutInts(xs) == PutInts(ys)
    ensures xs == ys
  {
    if xs != [] && ys != [] {
      assert PutInts(xs)[..8] == PutInt(xs[0]) && PutInts(ys)[..8] == PutInt(ys[0]);
      assert PutInts(xs)[8..] == PutInts(xs[1..]) && PutInts(ys)[8..] == PutInts(ys[1..]);
      PutIntInjective(xs[0], ys[0]);
      PutIntsInjective(xs[1..], ys[1..]);
      assert xs == [xs[0]] + xs[1..] && ys == [ys[0]] + ys[1..];
    }
  }

  function ArchiveFields(a: Archive): seq<int64> {
    var styles: seq<int64> := seq(|a.unlockedStyles|, i requires 0 <= i < |a.unlockedStyles| => a.unlockedStyles[i]);
    [a.schemaVersion, a.gold, a.exp, a.bestScore, a.totalKills, a.totalGames, a.highestClearedDungeon, a.talentPoints,
     a.lastStyleId] + styles
  }

  lemma ArchiveFieldsInjective(a: Archive, b: Archive)
    requires ArchiveFields(a) == ArchiveFields(b)
    ensures a == b
  {
    var f, g := ArchiveFields(a), ArchiveFields(b);
    assert f[0] == g[0] && f[1] == g[1] && f[2] == g[2] && f[3] == g[3] && f[4] == g[4];
    assert f[5] == g[5] && f[6] == g[6] && f[7] == g[7] && f[8] == g[8];
    assert |a.unlockedStyles| == |f| - 9 == |b.unlockedStyles|;
    forall i | 0 <= i < |a.unlockedStyles| ensures a.unlockedStyles[i] == b.unlockedStyles[i] {
      assert f[9 + i] == g[9 + i];
    }
    assert a.unlockedStyles == b.unlockedStyles;
  }

  function Flag(b: bool): int64 {
    if b then 1 else 0
  }

  /** The characters of a string, ended by a number no character has. */
  function TextFields(s: string): seq<int64> {
    if s == "" then [-1] else [s[0] as int] + TextFields(s[1..])
  }

  lemma {:induction false} TextFieldsInjective(s: string, t: string, x: seq<int64>, y: seq<int64>)
    requires TextFields(s) + x == TextFields(t) + y
    ensures s == t && x == y
  {
    assert (TextFields(s) + x)[0] == (TextFields(t) + y)[0];
    if s == "" || t == "" {
      assert s == t == "";
      assert x == (TextFields(s) + x)[1..] == (TextFields(t) + y)[1..] == y;
    } else {
      assert (TextFields(s) + x)[1..] == TextFields(s[1..]) + x;
      assert (TextFields(t) + y)[1..] == TextFields(t[1..]) + y;
      TextFieldsInjective(s[1..], t[1..], x, y);
      assert s == [s[0]] + s[1..] && t == [t[0]] + t[1..];
    }
  }

  function ArchivePart(a: Option<Archive>): seq<int64> {
    match a
    case None => []
    case Some(archive) => ArchiveFields(archive)
  }

  function ResponseFields(r: Response): seq<int64> {
    [Flag(r.success), Flag(r.duplicate), r.rewardGold, r.rewardExp, r.bestScore]
    + (TextFields(r.runId) + ArchivePart(r.archive))
  }

  lemma ResponseFieldsInjective(r: Response, t: Response)
    requires ResponseFields(r) == ResponseFields(t)
    ensures r == t
  {
    var f, g := ResponseFields(r), ResponseFields(t);
    assert f[0] == g[0] && f[1] == g[1] && f[2] == g[2] && f[3] == g[3] && f[4] == g[4];
    assert f[5..] == g[5..];
    assert f[5..] == TextFields(r.runId) + ArchivePart(r.archive);
    assert g[5..] == TextFields(t.runId) + ArchivePart(t.archive);
    TextFieldsInjective(r.runId, t.runId, ArchivePart(r.archive), ArchivePart(t.archive));
    if r.archive.Some? && t.archive.Some? {
      ArchiveFieldsInjective(r.archive.value, t.archive.value);
    }
  }

  ghost function GetArchive(data: Blob): Option<Archive> {
    if exists a :: PutInts(ArchiveFields(a)) == data then
      var a :| PutInts(ArchiveFields(a)) == data;
      Some(a)
    else None
  }

  ghost function GetResponse(data: Blob): Option<Response> {
    if exists r :: PutInts(ResponseFields(r)) == data then
      var r :| PutInts(ResponseFields(r)) == data;
      Some(r)
    else None
  }

  /** The results that assume a lawful marshaller, or one that never fails, are about something. */
  lemma LawfulMarshallerExists() returns (m: Marshaller)
    ensures Lawful(m) && NeverFails(m)
  {
    m := Marshaller(
      (a: Archive) => Some(PutInts(ArchiveFields(a))), (data: Blob) => GetArchive(data),
      (r: Response) => Some(PutInts(ResponseFields(r))), (data: Blob) => GetResponse(data));
    forall a: Archive ensures m.getArchive(m.putArchive(a).value) == Some(a) {
      var b := GetArchive(PutInts(ArchiveFields(a))).value;
      PutIntsInjective(ArchiveFields(a), ArchiveFields(b));
      ArchiveFieldsInjective(a, b);
    }
    forall r: Response ensures m.getResponse(m.putResponse(r).value) == Some(r) {
      var t := GetResponse(PutInts(ResponseFields(r))).value;
      PutIntsInjective(ResponseFields(r), ResponseFields(t));
      ResponseFieldsInjective(r, t);
    }
  }
}
