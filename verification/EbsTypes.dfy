/** The volume record, its status encoding and the GiB arithmetic of pkg/ebs/types. */
module EbsTypes {

  const GB: int := 0x4000_0000
  const MAX_INT64: int := 0x7fff_ffff_ffff_ffff
  const MIN_INT64: int := -0x8000_0000_0000_0000

  type int64 = x: int | MIN_INT64 <= x <= MAX_INT64

  /** Go's two's complement wrap-around of an int64 result. */
  function Wrap64(x: int): int64 {
    (x - MIN_INT64) % 0x1_0000_0000_0000_0000 + MIN_INT64
  }

  /** Go's integer division: it truncates toward zero. */
  function TruncDiv(a: int, b: int): int
    requires b > 0
  {
    if a >= 0 then a / b else -((-a) / b)
  }

  /** `(bytes + GB - 1) / GB` on int64, as CreateVolume, ExtendVolume and ControllerExpandVolume compute it. */
  function RoundUpGB(bytes: int64): int {
    TruncDiv(Wrap64(bytes + GB - 1), GB)
  }

  /** The largest request the rounding can represent: 2^63 - 2^30. */
  const MAX_ROUNDABLE: int := 0x7fff_ffff_c000_0000

  /** Rounding up covers a non-negative request, by less than one GiB and within int64,
      exactly when the request is at most 2^63 - 2^30; beyond that the sum wraps. */
  lemma RoundUpCovers(bytes: int64)
    requires bytes >= 0
    ensures bytes <= RoundUpGB(bytes) * GB <==> bytes <= MAX_ROUNDABLE
    ensures bytes <= MAX_ROUNDABLE ==>
              RoundUpGB(bytes) * GB < bytes + GB && RoundUpGB(bytes) * GB <= MAX_INT64
  {
    if bytes <= MAX_ROUNDABLE {
      assert Wrap64(bytes + GB - 1) == bytes + GB - 1;
    } else {
      assert Wrap64(bytes + GB - 1) < 0;
    }
  }

  /** Every size the rounding can produce stays an int64 when turned back into bytes. */
  lemma RoundedFits(bytes: int64)
    ensures MIN_INT64 <= RoundUpGB(bytes) * GB <= MAX_INT64
    ensures RoundUpGB(bytes) < 0x2_0000_0000
  {
  }

  // ----- Status (volume.go) -----

  datatype Status =
    | StatusAvailable | StatusAttached | StatusDeleted
    | StatusDetaching | StatusExtending | StatusUnknown

  function StatusFromString(status: string): Status {
    match status
    case "available" => StatusAvailable
    case "attached" => StatusAttached
    case "deleted" => StatusDeleted
    case "detaching" => StatusDetaching
    case "extending" => StatusExtending
    case _ => StatusUnknown
  }

  function StatusToString(status: Status): string {
    match status
    case StatusAvailable => "available"
    case StatusAttached => "attached"
    case StatusDeleted => "deleted"
    case _ => "unknown"
  }

  /** The comparison made by the status poll, `StatusToString(vol.Status) == want` on a status read
      from the cloud's string, is the comparison of the raw strings exactly for the wanted values
      that survive the round trip; nothing the cloud says can match "detaching" or "extending". */
  lemma StatusComparison(raw: string, want: string)
    ensures want in {"available", "attached", "deleted"} ==>
              (StatusToString(StatusFromString(raw)) == want <==> raw == want)
    ensures want in {"detaching", "extending"} ==> StatusToString(StatusFromString(raw)) != want
    ensures want == "unknown" ==>
              (StatusToString(StatusFromString(raw)) == want <==> raw !in {"available", "attached", "deleted"})
  {
    assert "unknown"[0] != "available"[0] && "unknown"[0] != "attached"[0];
    assert "unknown"[0] != "deleted"[0] && "unknown"[0] != "detaching"[0] && "unknown"[0] != "extending"[0];
    assert |"available"| != |"attached"|;
    assert "available"[0] != "deleted"[0] && "available"[0] != "detaching"[0] && "available"[0] != "extending"[0];
    assert |"attached"| != |"deleted"|;
    assert "attached"[0] != "detaching"[0] && "attached"[0] != "extending"[0];
    assert |"deleted"| != |"detaching"|;
    assert "deleted"[0] != "extending"[0];
    if raw in {"available", "attached", "deleted"} {
    }
  }

  /** types.Volume: what a describe call reports. */
  datatype Volume = Volume(
    id: string,
    name: string,
    status: Status,
    capacity: int,
    nodeId: string,
    zoneId: string,
    volumeType: string)
  {
    predicate Attached() { status == StatusAttached }
    predicate Available() { status == StatusAvailable }
    predicate Deleted() { status == StatusDeleted }
    predicate Detaching() { status == StatusDetaching }
  }
}
