/** Types shared by every component of the controller. */
module Common {
  import opened Bytes

  datatype Option<+T> = None | Some(value: T)

  /** The outcome of an operation of the control plane. */
  datatype IrrigationResult = Ok | Rejected | InvalidState | NotFound | Timeout | InternalError | NotSupported | Referenced

  /** A result that is not success. */
  type Failure = r: IrrigationResult | r != Ok witness Rejected

  /** The characters of a C string, without its terminator. */
  type Text = t: seq<byte> | 0 !in t witness []

  /** The C string at the start of a buffer: its bytes up to the first NUL. */
  function CString(raw: seq<byte>): (text: Text)
    ensures |text| <= |raw| && text == raw[..|text|]
    ensures |text| < |raw| ==> raw[|text|] == 0
  {
    if raw == [] || raw[0] == 0 then []
    else
      var rest := CString(raw[1..]);
      assert forall i | 0 <= i < |rest| :: raw[1..][i] == raw[i + 1];
      [raw[0]] + rest
  }

  const MAX_OUTPUTS: nat := 8
  const MAX_ZONES: nat := 8
  const MAX_PROGRAMS: nat := 4
  const MAX_PROGRAM_STEPS: nat := 8
  const MAX_SCHEDULES: nat := 16
  const MAX_HISTORY_RECORDS: nat := 16

  /** A zone as the board declares it. */
  datatype Zone = Zone(id: Text, outputIndex: nat, enabled: bool, defaultDurationMs: u32)
}
