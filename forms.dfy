/** The form-level rules of forms.py: the phone validator and the choice tables. */
module Forms {
  import opened Seqs

  /** Outcome of a WTForms field validator: pass, or raise ValidationError. */
  datatype Verdict = Accepted | ValidationError(message: string)

  const PhoneMessage: string := "Phone number must start with \"+1\""

  /** `is_valid_phone`: the field must start with "+1". */
  function IsValidPhone(data: string): (v: Verdict)
    ensures v.Accepted? <==> |data| >= 2 && data[0] == '+' && data[1] == '1'
    ensures v.ValidationError? ==> v.message == PhoneMessage
  {
    if Take(data, 2) == "+1" then Accepted else ValidationError(PhoneMessage)
  }

  /** Whatever follows "+1" is accepted. */
  lemma PhoneAnySuffixAccepted(rest: string)
    ensures IsValidPhone("+1" + rest) == Accepted
  {
    assert ("+1" + rest)[0] == '+';
    assert ("+1" + rest)[1] == '1';
  }

  /** Strings shorter than two characters, the empty string among them, are rejected. */
  lemma PhoneShortRejected(data: string)
    requires |data| < 2
    ensures IsValidPhone(data).ValidationError?
  {
  }

  /** Only the first two characters decide: extending a string of two or more keeps the verdict. */
  lemma PhoneVerdictStableUnderExtension(data: string, more: string)
    requires |data| >= 2
    ensures IsValidPhone(data + more) == IsValidPhone(data)
  {
    assert (data + more)[0] == data[0] && (data + more)[1] == data[1];
  }

  /**
   * The 51 state choices, in the order of the form (the fifty states and DC).
   * They are written as three runs so that each can be checked on its own.
   */
  const STATES: seq<(string, string)> := StatesPart1 + StatesPart2 + StatesPart3

  const StatesPart1: seq<(string, string)> := [
    ("AL", "AL"), ("AK", "AK"), ("AZ", "AZ"), ("AR", "AR"), ("CA", "CA"), ("CO", "CO"),
    ("CT", "CT"), ("DE", "DE"), ("DC", "DC"), ("FL", "FL"), ("GA", "GA"), ("HI", "HI"),
    ("ID", "ID"), ("IL", "IL"), ("IN", "IN"), ("IA", "IA"), ("KS", "KS")
  ]

  const StatesPart2: seq<(string, string)> := [
    ("KY", "KY"), ("LA", "LA"), ("ME", "ME"), ("MT", "MT"), ("NE", "NE"), ("NV", "NV"),
    ("NH", "NH"), ("NJ", "NJ"), ("NM", "NM"), ("NY", "NY"), ("NC", "NC"), ("ND", "ND"),
    ("OH", "OH"), ("OK", "OK"), ("OR", "OR"), ("MD", "MD"), ("MA", "MA")
  ]

  const StatesPart3: seq<(string, string)> := [
    ("MI", "MI"), ("MN", "MN"), ("MS", "MS"), ("MO", "MO"), ("PA", "PA"), ("RI", "RI"),
    ("SC", "SC"), ("SD", "SD"), ("TN", "TN"), ("TX", "TX"), ("UT", "UT"), ("VT", "VT"),
    ("VA", "VA"), ("WA", "WA"), ("WV", "WV"), ("WI", "WI"), ("WY", "WY")
  ]

  const GENRES: seq<(string, string)> := [
    ("Alternative", "Alternative"), ("Blues", "Blues"), ("Classical", "Classical"),
    ("Country", "Country"), ("Electronic", "Electronic"), ("Folk", "Folk"),
    ("Funk", "Funk"), ("Hip-Hop", "Hip-Hop"), ("Heavy Metal", "Heavy Metal"),
    ("Instrumental", "Instrumental"), ("Jazz", "Jazz"), ("Musical Theatre", "Musical Theatre"),
    ("Pop", "Pop"), ("Punk", "Punk"), ("R&B", "R&B"),
    ("Reggae", "Reggae"), ("Rock n Roll", "Rock n Roll"), ("Soul", "Soul"),
    ("Other", "Other")
  ]

  const YES_No_ANSWERS: seq<(string, string)> := [("Yes", "Yes"), ("No", "No")]

  /** Every choice submits the same string it displays. */
  predicate ValueIsLabel(choices: seq<(string, string)>) {
    forall i :: 0 <= i < |choices| ==> choices[i].0 == choices[i].1
  }

  /** No value is offered twice. */
  predicate NoDuplicateValues(choices: seq<(string, string)>) {
    forall i, j :: 0 <= i < j < |choices| ==> choices[i].0 != choices[j].0
  }

  predicate IsUpper(c: char) { 'A' <= c <= 'Z' }

  /** No value of `c` occurs in `d`. */
  predicate Apart(c: seq<(string, string)>, d: seq<(string, string)>) {
    forall i, j :: 0 <= i < |c| && 0 <= j < |d| ==> c[i].0 != d[j].0
  }

  predicate TwoCapitals(code: string) {
    |code| == 2 && IsUpper(code[0]) && IsUpper(code[1])
  }

  predicate CodesAreTwoCapitals(choices: seq<(string, string)>) {
    forall i :: 0 <= i < |choices| ==> TwoCapitals(choices[i].0)
  }

  /** Joining two tables keeps each property that both parts have. */
  lemma JoinTables(c: seq<(string, string)>, d: seq<(string, string)>)
    requires ValueIsLabel(c) && ValueIsLabel(d)
    requires CodesAreTwoCapitals(c) && CodesAreTwoCapitals(d)
    requires NoDuplicateValues(c) && NoDuplicateValues(d) && Apart(c, d)
    ensures ValueIsLabel(c + d) && CodesAreTwoCapitals(c + d) && NoDuplicateValues(c + d)
  {
    var cd := c + d;
    assert forall k :: |c| <= k < |cd| ==> cd[k] == d[k - |c|];
    forall i, j | 0 <= i < j < |cd| ensures cd[i].0 != cd[j].0 {
      if j < |c| {
        assert cd[i] == c[i] && cd[j] == c[j];
      } else if i < |c| {
        assert cd[i] == c[i];
      }
    }
  }

  lemma ApartFromJoin(c: seq<(string, string)>, d: seq<(string, string)>, e: seq<(string, string)>)
    requires Apart(c, e) && Apart(d, e)
    ensures Apart(c + d, e)
  {
    var cd := c + d;
    forall i, j | 0 <= i < |cd| && 0 <= j < |e| ensures cd[i].0 != e[j].0 {
      if i >= |c| {
        assert cd[i] == d[i - |c|];
      }
    }
  }

  lemma StatesPart1WellFormed()
    ensures ValueIsLabel(StatesPart1) && CodesAreTwoCapitals(StatesPart1)
  {
  }

  /** A two-letter code read as a number: codes with different numbers differ. */
  function CodeNumber(code: string): int
    requires |code| == 2
  {
    code[0] as int * 256 + code[1] as int
  }

  lemma StatesPart1Distinct()
    ensures NoDuplicateValues(StatesPart1)
  {
    StatesPart1WellFormed();
    assert forall i, j :: 0 <= i < j < |StatesPart1| ==> CodeNumber(StatesPart1[i].0) != CodeNumber(StatesPart1[j].0);
  }

  lemma StatesPart2WellFormed()
    ensures ValueIsLabel(StatesPart2) && CodesAreTwoCapitals(StatesPart2)
  {
  }

  lemma StatesPart2Distinct()
    ensures NoDuplicateValues(StatesPart2)
  {
    StatesPart2WellFormed();
    assert forall i, j :: 0 <= i < j < |StatesPart2| ==> CodeNumber(StatesPart2[i].0) != CodeNumber(StatesPart2[j].0);
  }

  lemma StatesPart3WellFormed()
    ensures ValueIsLabel(StatesPart3) && CodesAreTwoCapitals(StatesPart3)
  {
  }

  lemma StatesPart3Distinct()
    ensures NoDuplicateValues(StatesPart3)
  {
    StatesPart3WellFormed();
    assert forall i, j :: 0 <= i < j < |StatesPart3| ==> CodeNumber(StatesPart3[i].0) != CodeNumber(StatesPart3[j].0);
  }

  lemma StatesParts1And2Apart()
    ensures Apart(StatesPart1, StatesPart2)
  {
  }

  lemma StatesParts1And3Apart()
    ensures Apart(StatesPart1, StatesPart3)
  {
  }

  lemma StatesParts2And3Apart()
    ensures Apart(StatesPart2, StatesPart3)
  {
  }

  /** STATES holds 51 distinct two-letter codes, each submitted as displayed. */
  lemma StatesTable()
    ensures |STATES| == 51
    ensures ValueIsLabel(STATES)
    ensures CodesAreTwoCapitals(STATES)
    ensures NoDuplicateValues(STATES)
  {
    StatesPart1WellFormed();
    StatesPart1Distinct();
    StatesPart2WellFormed();
    StatesPart2Distinct();
    StatesPart3WellFormed();
    StatesPart3Distinct();
    StatesParts1And2Apart();
    StatesParts1And3Apart();
    StatesParts2And3Apart();
    JoinTables(StatesPart1, StatesPart2);
    ApartFromJoin(StatesPart1, StatesPart2, StatesPart3);
    JoinTables(StatesPart1 + StatesPart2, StatesPart3);
  }

  lemma GenresDistinct()
    ensures NoDuplicateValues(GENRES)
  {
  }

  /** GENRES holds 19 distinct genres, each submitted as displayed. */
  lemma GenresTable()
    ensures |GENRES| == 19
    ensures ValueIsLabel(GENRES)
    ensures NoDuplicateValues(GENRES)
  {
    GenresDistinct();
  }

  lemma YesNoTable()
    ensures YES_No_ANSWERS == [("Yes", "Yes"), ("No", "No")]
    ensures ValueIsLabel(YES_No_ANSWERS)
  {
  }
}
