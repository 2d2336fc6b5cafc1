/** The channel of ltb/core_io.py. Both functions take a `config` argument
    but read the module-level dictionary `io_config` only; the model passes
    both and uses the second. */
module CoreIo {
  import opened Wire

  /** The dictionary `io_config`: default counter and powers returned by a
      failed read, and the scale and bias of the conversion. */
  datatype IoConfig = IoConfig(kDf: int, pDf: real, qDf: real, htbS: real, htbB: real)

  /** `io_config` as the module defines it. */
  const InitialIoConfig: IoConfig := IoConfig(-4, 0.0, 0.0, 10000.0, -2.0)

  const FileNotFoundText: string := "ERROR: File Not Found"
  const ValueErrorText: string := "ERROR: Value Error"

  /** The triple `(out, txtc, io_flag)` with `out == [k, p, q]`. */
  datatype ReadResult = ReadResult(k: int, p: real, q: real, txtc: string, ioFlag: bool)

  /** `data_read(file, config)`. The defaults are taken from `io_config` at
      the time of the call. A zero scale would raise ZeroDivisionError, which
      the function does not catch; `io_config` never has one. */
  function DataRead(file: FileState, config: IoConfig, ioConfig: IoConfig): (r: ReadResult)
    requires ioConfig.htbS != 0.0
    ensures r.ioFlag <==> Readable(file)
    ensures r.ioFlag ==> (var t := ParseTriple(file.text).value;
                          r.k == t.k && r.txtc == file.text
                          && r.p == Decode(t.p, ioConfig) && r.q == Decode(t.q, ioConfig))
    ensures !r.ioFlag ==> r.k == ioConfig.kDf && r.p == ioConfig.pDf && r.q == ioConfig.qDf
    ensures file.Missing? ==> r.txtc == FileNotFoundText
    ensures file.Present? && !r.ioFlag ==> r.txtc == ValueErrorText
  {
    if Readable(file) then
      var t := ParseTriple(file.text).value;
      ReadResult(t.k, Decode(t.p, ioConfig), Decode(t.q, ioConfig), file.text, true)
    else if file.Missing? then
      ReadResult(ioConfig.kDf, ioConfig.pDf, ioConfig.qDf, FileNotFoundText, false)
    else
      ReadResult(ioConfig.kDf, ioConfig.pDf, ioConfig.qDf, ValueErrorText, false)
  }

  /** `raw / htb_s + htb_b`: undoing the bias and the scale gives `raw` back. */
  function Decode(raw: int, ioConfig: IoConfig): real
    requires ioConfig.htbS != 0.0
  {
    raw as real / ioConfig.htbS + ioConfig.htbB
  }

  /** With the module's own dictionary, a rendered triple reads back as the
      counter and `raw / 1e4 - 2` for both powers. */
  lemma ReadRendered(t: Triple, config: IoConfig)
    ensures DataRead(Present(Render(t)), config, InitialIoConfig)
         == ReadResult(t.k, t.p as real / 10000.0 - 2.0, t.q as real / 10000.0 - 2.0, Render(t), true)
  {
    RenderParses(t);
  }

  /** Effect of `data_write`: the row handed to the CSV writer and `io_flag`,
      or `Raised` when `open` fails (the function catches nothing). */
  datatype WriteOutcome = Wrote(row: seq<real>, ioFlag: bool) | Raised

  /** `data_write(dataw, file, config)`. The log message reads `dataw[0]` and
      `dataw[1]`, so the source needs at least two values. */
  function DataWrite(dataw: seq<real>, sink: Sink, config: IoConfig, ioConfig: IoConfig): (r: WriteOutcome)
    requires |dataw| >= 2
    ensures r.Wrote? <==> sink == Opens
    ensures r.Wrote? ==> r.ioFlag && |r.row| == |dataw|
    ensures r.Wrote? ==> forall i :: 0 <= i < |dataw| ==> r.row[i] == dataw[i] * ioConfig.htbS
  {
    if sink == Opens then
      Wrote(seq(|dataw|, i requires 0 <= i < |dataw| => dataw[i] * ioConfig.htbS), true)
    else
      Raised
  }

  /** The row written holds every value scaled by `htb_s`: dividing it back
      gives the data. */
  lemma WroteRowDecodes(dataw: seq<real>, sink: Sink, config: IoConfig, ioConfig: IoConfig)
    requires |dataw| >= 2
    ensures var r := DataWrite(dataw, sink, config, ioConfig);
            r.Wrote? && ioConfig.htbS != 0.0 ==> forall i :: 0 <= i < |dataw| ==> r.row[i] / ioConfig.htbS == dataw[i]
  {
  }

  /** With the module's `io_config`, the write side scales by `htb_s` but
      adds no bias, so when the two written values come back as the integers
      of a read file they decode shifted by `htb_b`: a written pair never
      reads back as itself. */
  lemma WrittenPairReadsBackShifted(dataw: seq<real>, k: int, n: int, m: int, config: IoConfig)
    requires |dataw| == 2
    requires DataWrite(dataw, Opens, config, InitialIoConfig) == Wrote([n as real, m as real], true)
    ensures var r := DataRead(Present(Render(Triple(k, n, m))), config, InitialIoConfig);
            r.ioFlag && r.k == k && r.p == dataw[0] + InitialIoConfig.htbB && r.q == dataw[1] + InitialIoConfig.htbB
    ensures DataRead(Present(Render(Triple(k, n, m))), config, InitialIoConfig).p != dataw[0]
  {
    var row := DataWrite(dataw, Opens, config, InitialIoConfig).row;
    assert row[0] == n as real && row[1] == m as real;
    ReadRendered(Triple(k, n, m), config);
    assert n as real / 10000.0 == dataw[0];
    assert m as real / 10000.0 == dataw[1];
  }
}
