/** `isValidStats`: the exact shape a metrics payload must have before the
    display accepts it. Three fields must be numbers; the temperature and
    the disk use may be a number or an explicit null (undefined is not
    enough). */
module Validation {
  import opened JsValues

  /** The accepted payload shape as a value. */
  datatype Snapshot = Snapshot(
    cpuLoad: Number,
    cpuTemp: Option<Number>,
    ramUsedPercent: Number,
    diskUsedPercent: Option<Number>,
    uptimeSeconds: Number)

  /** `typeof v === "number" || v === null` */
  predicate IsNumberOrNull(v: JsValue) {
    IsNumber(v) || v == Null
  }

  /** `isValidStats(stats)` */
  predicate IsValidStats(stats: JsValue) {
    if !Truthy(stats) || !IsObjectType(stats) then false
    else
      var hasNumbers :=
        IsNumber(Prop(stats, "cpuLoad"))
        && IsNumber(Prop(stats, "ramUsedPercent"))
        && IsNumber(Prop(stats, "uptimeSeconds"));
      var hasOptionalNumbers :=
        IsNumberOrNull(Prop(stats, "cpuTemp"))
        && IsNumberOrNull(Prop(stats, "diskUsedPercent"));
      hasNumbers && hasOptionalNumbers
  }

  function OptionalToJs(o: Option<Number>): JsValue {
    if o.Some? then Num(o.value) else Null
  }

  function OptionalFromJs(v: JsValue): Option<Number> {
    if v.Num? then Some(v.n) else None
  }

  /** A payload carrying the snapshot's five fields over any other
      properties (the collector's timestamp, for one). */
  function Encode(s: Snapshot, extra: map<string, JsValue>): JsValue {
    Obj(extra
      ["cpuLoad" := Num(s.cpuLoad)]
      ["cpuTemp" := OptionalToJs(s.cpuTemp)]
      ["ramUsedPercent" := Num(s.ramUsedPercent)]
      ["diskUsedPercent" := OptionalToJs(s.diskUsedPercent)]
      ["uptimeSeconds" := Num(s.uptimeSeconds)])
  }

  /** The snapshot an accepted payload carries. */
  function SnapshotOf(stats: JsValue): Snapshot
    requires IsValidStats(stats)
  {
    Snapshot(
      Prop(stats, "cpuLoad").n,
      OptionalFromJs(Prop(stats, "cpuTemp")),
      Prop(stats, "ramUsedPercent").n,
      OptionalFromJs(Prop(stats, "diskUsedPercent")),
      Prop(stats, "uptimeSeconds").n)
  }

  lemma FieldNamesDistinct()
    ensures "cpuLoad" != "cpuTemp" && "cpuLoad" != "ramUsedPercent"
    ensures "cpuLoad" != "diskUsedPercent" && "cpuLoad" != "uptimeSeconds"
    ensures "cpuTemp" != "ramUsedPercent" && "cpuTemp" != "diskUsedPercent"
    ensures "cpuTemp" != "uptimeSeconds" && "ramUsedPercent" != "diskUsedPercent"
    ensures "ramUsedPercent" != "uptimeSeconds" && "diskUsedPercent" != "uptimeSeconds"
  {
    assert "cpuLoad"[3] != "cpuTemp"[3];
    assert "cpuLoad"[0] != "ramUsedPercent"[0];
    assert "cpuLoad"[0] != "diskUsedPercent"[0];
    assert "cpuLoad"[0] != "uptimeSeconds"[0];
    assert "cpuTemp"[0] != "ramUsedPercent"[0];
    assert "cpuTemp"[0] != "diskUsedPercent"[0];
    assert "cpuTemp"[0] != "uptimeSeconds"[0];
    assert "ramUsedPercent"[0] != "diskUsedPercent"[0];
    assert "ramUsedPercent"[0] != "uptimeSeconds"[0];
    assert "diskUsedPercent"[0] != "uptimeSeconds"[0];
  }

  /** Every encoded snapshot is accepted, whatever else the payload holds,
      and reading it back gives the snapshot. */
  lemma EncodeAccepted(s: Snapshot, extra: map<string, JsValue>)
    ensures IsValidStats(Encode(s, extra))
    ensures SnapshotOf(Encode(s, extra)) == s
  {
    FieldNamesDistinct();
  }

  /** Every accepted payload is an encoded snapshot: its own snapshot over
      its own properties. */
  lemma AcceptedIsEncoded(stats: JsValue)
    requires IsValidStats(stats)
    ensures stats == Encode(SnapshotOf(stats), stats.props)
  {
    FieldNamesDistinct();
    var p := stats.props;
    var q := Encode(SnapshotOf(stats), p).props;
    assert q.Keys == p.Keys;
    forall k | k in p
      ensures q[k] == p[k]
    {
    }
  }

  /** Accepted payloads are exactly the encodings of snapshots. */
  lemma ValidIffEncoded(stats: JsValue)
    ensures IsValidStats(stats) <==> exists s, extra :: stats == Encode(s, extra)
  {
    if IsValidStats(stats) {
      AcceptedIsEncoded(stats);
    }
    if exists s, extra :: stats == Encode(s, extra) {
      var s, extra :| stats == Encode(s, extra);
      EncodeAccepted(s, extra);
    }
  }

  /** Rejected shapes: not an object, a wrong type, and a missing optional
      field (undefined is not null). */
  lemma RejectedExamples(s: Snapshot)
    ensures !IsValidStats(Null)
    ensures !IsValidStats(Str("stats"))
    ensures !IsValidStats(Obj(map["cpuLoad" := Str("high")]))
    ensures !IsValidStats(Obj(Encode(s, map[]).props - {"cpuTemp"}))
  {
    FieldNamesDistinct();
    assert Prop(Obj(Encode(s, map[]).props - {"cpuTemp"}), "cpuTemp") == Undefined;
  }
}
