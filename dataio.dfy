/** The channel of code/core.py: `data_io` reads `[k, p, q]` from the read file
    when no data is given, and otherwise writes one scaled CSV row. */
module DataIo {
  import opened Wire

  /** Counter returned by a failed read (`kdef`). */
  const KDef: int := -4
  /** Conversion factor `k_htb`. */
  const KHtb: real := 10000.0
  /** Conversion bias `b_htb`. */
  const BHtb: real := -2.0

  /** `raw / k_htb + b_htb`: the value whose encoding `(v - b_htb) * k_htb`
      is the raw integer. */
  function Decode(raw: int): real {
    raw as real / KHtb + BHtb
  }

  /** The list `[k, p, q]` a read returns; `None` is Python's None. */
  datatype Reading = Reading(k: int, p: Option<real>, q: Option<real>)

  /** `data_io(file, None, pdef, qdef)`: the pair `(out, exit_code)`. The
      reassignment of `pdef`/`qdef` inside the function is local, so on success
      the reading does not depend on them; on failure they are returned as the
      caller passed them. */
  function DataIoRead(file: FileState, pdef: Option<real>, qdef: Option<real>): (r: (Reading, bool))
    ensures r.1 <==> Readable(file)
    ensures r.1 ==> (var t := ParseTriple(file.text).value;
                     r.0 == Reading(t.k, Some(Decode(t.p)), Some(Decode(t.q))))
    ensures !r.1 ==> r.0 == Reading(KDef, pdef, qdef)
  {
    if Readable(file) then
      var t := ParseTriple(file.text).value;
      (Reading(t.k, Some(Decode(t.p)), Some(Decode(t.q))), true)
    else
      (Reading(KDef, pdef, qdef), false)
  }

  /** A file written as three decimal integers is read back as the counter and
      the two decoded powers, whatever defaults the caller passes. */
  lemma ReadRendered(t: Triple, pdef: Option<real>, qdef: Option<real>)
    ensures DataIoRead(Present(Render(t)), pdef, qdef)
         == (Reading(t.k, Some(t.p as real / 10000.0 - 2.0), Some(t.q as real / 10000.0 - 2.0)), true)
  {
    RenderParses(t);
    assert Decode(t.p) == t.p as real / 10000.0 - 2.0;
    assert Decode(t.q) == t.q as real / 10000.0 - 2.0;
  }

  /** Effect of the write branch: the row handed to the CSV writer (`None`
      when the file could not be opened), and `exit_code`; `Raised` is an
      exception that leaves `data_io`. The returned `out` is always None. */
  datatype Written = Written(row: Option<seq<real>>, exitCode: bool) | Raised

  /** `data_io(file, data)`: `exit_code` is set before `open`, so a
      FileNotFoundError is caught and still reported as success; any other
      OSError of `open` propagates. The log message reads `data[0]` and
      `data[1]`, so the source needs at least two values. */
  function DataIoWrite(sink: Sink, data: seq<real>): (r: Written)
    requires |data| >= 2
    ensures r.Raised? <==> sink == OtherOsError
    ensures r.Written? ==> r.exitCode && (r.row.Some? <==> sink == Opens)
    ensures r.Written? && r.row.Some? ==>
              |r.row.value| == |data| && forall i :: 0 <= i < |data| ==> r.row.value[i] == data[i] * KHtb
  {
    match sink
    case Opens => Written(Some(seq(|data|, i requires 0 <= i < |data| => data[i] * KHtb)), true)
    case NoSuchDirectory => Written(None, true)
    case OtherOsError => Raised
  }

  /** The row written holds every value scaled by `k_htb`: dividing it back
      gives the data. */
  lemma WrittenRowDecodes(sink: Sink, data: seq<real>)
    requires |data| >= 2
    ensures var r := DataIoWrite(sink, data);
            r.Written? && r.row.Some? ==>
              |r.row.value| == |data| && forall i :: 0 <= i < |data| ==> r.row.value[i] / KHtb == data[i]
  {
  }

  /** The write side scales by `k_htb` but adds no bias, so when the two
      written values come back as the integers of a read file they decode
      shifted by `b_htb`: a written pair never reads back as itself. */
  lemma WrittenPairReadsBackShifted(data: seq<real>, k: int, n: int, m: int, pdef: Option<real>, qdef: Option<real>)
    requires |data| == 2
    requires DataIoWrite(Opens, data).row == Some([n as real, m as real])
    ensures DataIoRead(Present(Render(Triple(k, n, m))), pdef, qdef).0
         == Reading(k, Some(data[0] + BHtb), Some(data[1] + BHtb))
    ensures DataIoRead(Present(Render(Triple(k, n, m))), pdef, qdef).0.p != Some(data[0])
  {
    var row := DataIoWrite(Opens, data).row.value;
    assert row[0] == n as real && row[1] == m as real;
    ReadRendered(Triple(k, n, m), pdef, qdef);
    assert n as real / KHtb == data[0];
    assert m as real / KHtb == data[1];
  }
}
