/** The two cancellation policies a session can have, with their raw string values and display texts. */
module StrictnessModes {
  import opened Wrappers

  /** Strict: no way to cancel. Flexible: cancel after a delay that can be aborted. */
  datatype StrictnessMode = Strict | Flexible

  /** The enum's `String` raw value: the case's own name, a lower-case word. */
  function RawValue(m: StrictnessMode): (r: string)
    ensures |r| >= 1 && forall i :: 0 <= i < |r| ==> 'a' <= r[i] <= 'z'
  {
    match m
    case Strict => "strict"
    case Flexible => "flexible"
  }

  /** `init(rawValue:)`: the case whose raw value is `raw`, or nil for any other string. */
  function FromRawValue(raw: string): (r: Option<StrictnessMode>)
    ensures r.Some? <==> raw == "strict" || raw == "flexible"
    ensures r.Some? ==> RawValue(r.value) == raw
  {
    if raw == "strict" then Some(Strict)
    else if raw == "flexible" then Some(Flexible)
    else None
  }

  /** `Identifiable.id` is the raw value, so it names its case. */
  function Id(m: StrictnessMode): (id: string)
    ensures FromRawValue(id) == Some(m)
  {
    RawValue(m)
  }

  /** The display name is the raw value with its first letter in upper case. */
  function DisplayName(m: StrictnessMode): (name: string)
    ensures |name| == |RawValue(m)|
    ensures name[1..] == RawValue(m)[1..]
    ensures name[0] as int == RawValue(m)[0] as int - ('a' as int - 'A' as int)
  {
    match m
    case Strict => "Strict"
    case Flexible => "Flexible"
  }

  /** The description says "Cannot ..." exactly for the mode that cannot be cancelled. */
  function Description(m: StrictnessMode): (d: string)
    ensures |d| >= 6 && (d[..6] == "Cannot" <==> m == Strict)
  {
    match m
    case Strict => "Cannot cancel until time is up"
    case Flexible =>
      var d := "Cancel with a 30-second delay";
      assert d[..6][3] != "Cannot"[3];
      d
  }

  /** `init(rawValue:)` inverts `rawValue`, and `CaseIterable` lists exactly the two cases. */
  lemma RawValueRoundTrip(m: StrictnessMode)
    ensures FromRawValue(RawValue(m)) == Some(m)
    ensures m == Strict || m == Flexible
    ensures Id(m) == RawValue(m)
  {
  }

  /** Distinct cases have distinct raw values, ids, display names and descriptions. */
  lemma CasesDistinguishable(a: StrictnessMode, b: StrictnessMode)
    ensures RawValue(a) == RawValue(b) <==> a == b
    ensures Id(a) == Id(b) <==> a == b
    ensures DisplayName(a) == DisplayName(b) <==> a == b
    ensures Description(a) == Description(b) <==> a == b
  {
    if a != b {
      assert RawValue(a)[0] != RawValue(b)[0];
      assert DisplayName(a)[0] != DisplayName(b)[0];
      assert Description(a)[3] != Description(b)[3];
    }
  }
}
