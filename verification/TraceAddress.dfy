/** The column that stores the trace address of a transaction. */
module TraceAddress {
  import opened Types
  import opened Decimal

  const USIZE_MAX: nat := 0xffff_ffff_ffff_ffff

  predicate FitsUsize(t: Option<seq<nat>>) {
    t.Some? ==> forall i :: 0 <= i < |t.value| ==> t.value[i] <= USIZE_MAX
  }

  function Numerals(indices: seq<nat>): seq<string> {
    seq(|indices|, i requires 0 <= i < |indices| => ToString(indices[i]))
  }

  /** What `insert_transaction` stores; `None` is null. */
  function Encode(t: Option<seq<nat>>): Option<string> {
    if t.None? then None else Some(Join(Numerals(t.value), '/'))
  }

  datatype ParseError = Empty | InvalidDigit | TooLarge

  /** `str::parse` for an unsigned machine integer. */
  function ParseUsize(s: string): Result<nat, ParseError> {
    if s == "" then Err(Empty)
    else
      var digits := if s[0] == '+' then s[1..] else s;
      if digits == "" || !AllDigits(digits) then Err(InvalidDigit)
      else if Value(digits) > USIZE_MAX then Err(TooLarge)
      else Ok(Value(digits))
  }

  function ParseAll(parts: seq<string>): Result<seq<nat>, ParseError> {
    if parts == [] then Ok([])
    else
      match ParseUsize(parts[0])
      case Err(e) => Err(e)
      case Ok(first) =>
        match ParseAll(parts[1..])
        case Err(e) => Err(e)
        case Ok(rest) => Ok([first] + rest)
  }

  /** What reading the column back gives; an error is the panic of `unwrap`. */
  function Decode(column: Option<string>): Result<Option<seq<nat>>, ParseError> {
    if column.None? || column.value == "" then Ok(None)
    else
      match ParseAll(Split(column.value, '/'))
      case Err(e) => Err(e)
      case Ok(indices) => Ok(Some(indices))
  }

  lemma {:induction false} ParsesBack(indices: seq<nat>)
    requires FitsUsize(Some(indices))
    ensures ParseAll(Numerals(indices)) == Ok(indices)
  {
    if indices != [] {
      ParsesBack(indices[1..]);
      assert Numerals(indices)[1..] == Numerals(indices[1..]);
      ValueOfToString(indices[0]);
      assert Numerals(indices)[0] == ToString(indices[0]);
      assert ParseUsize(ToString(indices[0])) == Ok(indices[0]) by {
        assert ToString(indices[0])[0] != '+';
      }
      assert [indices[0]] + indices[1..] == indices;
    }
  }

  lemma JoinedIsEmptyIffNone(indices: seq<nat>)
    ensures Join(Numerals(indices), '/') == "" <==> indices == []
  {
    if indices != [] {
      assert Numerals(indices)[0] != "";
    }
  }

  /** Reading back what was stored gives the trace address, except that an empty one becomes null;
      it never panics. */
  lemma RoundTrip(t: Option<seq<nat>>)
    requires FitsUsize(t)
    ensures Decode(Encode(t)) == Ok(if t == Some([]) then None else t)
  {
    if t.Some? {
      JoinedIsEmptyIffNone(t.value);
      if t.value != [] {
        forall i | 0 <= i < |t.value|
          ensures '/' !in Numerals(t.value)[i]
        {
        }
        SplitOfJoin(Numerals(t.value), '/');
        ParsesBack(t.value);
      }
    }
  }

  // ----- any column text -------------------------------------------------------------------

  /** The text is a number that fits a machine word, in decimal digits after at most one plus. */
  ghost predicate Writes(s: string, index: nat) {
    exists digits: string :: IsPlusOr(s, digits) && digits != "" && AllDigits(digits)
                             && Value(digits) == index && index <= 0xffff_ffff_ffff_ffff
  }

  predicate IsPlusOr(s: string, digits: string) {
    s == digits || s == "+" + digits
  }

  ghost predicate AllWrite(parts: seq<string>, indices: seq<nat>) {
    |parts| == |indices| && forall i :: 0 <= i < |parts| ==> Writes(parts[i], indices[i])
  }

  lemma WrittenParses(s: string, digits: string)
    requires IsPlusOr(s, digits) && digits != "" && AllDigits(digits) && Value(digits) <= USIZE_MAX
    ensures ParseUsize(s) == Ok(Value(digits)) && '/' !in s
  {
    assert IsDigit(digits[0]);
    if s != digits {
      assert s[1..] == digits;
    }
  }

  lemma ParsesIffWritten(s: string, index: nat)
    ensures ParseUsize(s) == Ok(index) <==> Writes(s, index)
    ensures Writes(s, index) ==> '/' !in s
  {
    if Writes(s, index) {
      var digits: string :| IsPlusOr(s, digits) && digits != "" && AllDigits(digits)
                            && Value(digits) == index && index <= 0xffff_ffff_ffff_ffff;
      WrittenParses(s, digits);
    }
    if ParseUsize(s) == Ok(index) {
      assert IsPlusOr(s, if s[0] == '+' then s[1..] else s);
    }
  }

  lemma AllWriteUnfolds(parts: seq<string>, indices: seq<nat>)
    requires parts != [] && indices != []
    ensures AllWrite(parts, indices) <==> Writes(parts[0], indices[0]) && AllWrite(parts[1..], indices[1..])
  {
    hide Writes;
    if Writes(parts[0], indices[0]) && AllWrite(parts[1..], indices[1..]) {
      forall i | 0 <= i < |parts|
        ensures Writes(parts[i], indices[i])
      {
        assert i == 0 || Writes(parts[1..][i - 1], indices[1..][i - 1]);
      }
    }
  }

  lemma {:induction false} AllParseIffWritten(parts: seq<string>, indices: seq<nat>)
    ensures ParseAll(parts) == Ok(indices) <==> AllWrite(parts, indices)
  {
    hide ParseUsize, Writes;
    if parts != [] && indices != [] {
      ParsesIffWritten(parts[0], indices[0]);
      AllParseIffWritten(parts[1..], indices[1..]);
      hide AllWrite;
      AllWriteUnfolds(parts, indices);
      assert indices == [indices[0]] + indices[1..];
    }
  }

  /** Text reads as a trace address if and only if it is those numbers with slashes between them;
      any other text, but the empty one, makes reading panic. */
  lemma ReadsIffWritten(column: string, indices: seq<nat>)
    ensures Decode(Some(column)) == Ok(Some(indices)) <==>
            column != "" && exists parts :: column == Join(parts, '/') && AllWrite(parts, indices)
  {
    JoinOfSplit(column, '/');
    AllParseIffWritten(Split(column, '/'), indices);
    if column != "" {
      forall parts | column == Join(parts, '/') && AllWrite(parts, indices)
        ensures parts == Split(column, '/')
      {
        forall i | 0 <= i < |parts|
          ensures '/' !in parts[i]
        {
          ParsesIffWritten(parts[i], indices[i]);
        }
        SplitOfJoin(parts, '/');
      }
    }
  }
}
