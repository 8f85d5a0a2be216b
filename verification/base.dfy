/** Shared vocabulary of the estate model: optional values, request outcomes,
    the error kinds a request can end with, and the "first last" name format
    that tenants, households and owners share. */
module Base {

  datatype Option<T> = None | Some(value: T)

  /** Why a request was refused. Each kind names the check in the
      application that raises it. */
  datatype Error =
    | NotFound               // get_object_or_404 found no row with that pk
    | DuplicateKey           // a unique column (or a one-to-one link) would repeat
    | Required               // a required form field was left empty
    | MeterNumberInUse       // MeterForm.clean_meter_number
    | HouseHasCurrentMeter   // MeterCreateView.post
    | NotReplaceable         // MeterReplacementForm.clean
    | ReadingNotIncreasing   // MeterReadingForm.clean
    | EndDateRequired        // TenantForm.clean
    | HouseNotSelectable     // the house is outside TenantForm's choice set
    | UnsavedRelation        // a related manager used on a tenant with no pk yet

  datatype Result<T> = Ok(value: T) | Err(error: Error)

  /** `get_full_name`: first and last name joined by one space; a middle
      name, where the record has one, is not part of it. */
  function FullName(first: string, last: string): (r: string)
    ensures |r| == |first| + 1 + |last|
    ensures r[..|first|] == first && r[|first|] == ' ' && r[|first| + 1..] == last
  {
    first + " " + last
  }

  /** Splits a string at its first space: the part before it and the part after it. */
  function SplitAtSpace(s: string): (r: (string, string))
  {
    if s == [] then ([], [])
    else if s[0] == ' ' then ([], s[1..])
    else
      var (a, b) := SplitAtSpace(s[1..]);
      ([s[0]] + a, b)
  }

  /** A full name gives back its first and last name whenever the first name
      has no space in it: the format loses nothing but the middle name. */
  lemma {:induction false} FullNameSplits(first: string, last: string)
    requires ' ' !in first
    ensures SplitAtSpace(FullName(first, last)) == (first, last)
  {
    if first == [] {
      assert FullName(first, last) == [' '] + last;
    } else {
      var s := FullName(first, last);
      assert s[0] == first[0] && s[1..] == FullName(first[1..], last);
      FullNameSplits(first[1..], last);
      assert [first[0]] + first[1..] == first;
    }
  }
}
