/**
 * StateMapper: the fixed table of US state and territory codes and the
 * lookup of a name by its code.
 */
module StateMapper {
  import opened Common

  /** STATES: (two-letter code, name), in table order. */
  const States: seq<(string, string)> :=
    [ ("AL", "Alabama"),
      ("AK", "Alaska"),
      ("AS", "American Samoa"),
      ("AZ", "Arizona"),
      ("AR", "Arkansas"),
      ("CA", "California"),
      ("CO", "Colorado"),
      ("CT", "Connecticut"),
      ("DE", "Delaware"),
      ("DC", "District Of Columbia") ] +
    [ ("FM", "Federated States Of Micronesia"),
      ("FL", "Florida"),
      ("GA", "Georgia"),
      ("GU", "Guam"),
      ("HI", "Hawaii"),
      ("ID", "Idaho"),
      ("IL", "Illinois"),
      ("IN", "Indiana"),
      ("IA", "Iowa"),
      ("KS", "Kansas") ] +
    [ ("KY", "Kentucky"),
      ("LA", "Louisiana"),
      ("ME", "Maine"),
      ("MH", "Marshall Islands"),
      ("MD", "Maryland"),
      ("MA", "Massachusetts"),
      ("MI", "Michigan"),
      ("MN", "Minnesota"),
      ("MS", "Mississippi"),
      ("MO", "Missouri") ] +
    [ ("MT", "Montana"),
      ("NE", "Nebraska"),
      ("NV", "Nevada"),
      ("NH", "New Hampshire"),
      ("NJ", "New Jersey"),
      ("NM", "New Mexico"),
      ("NY", "New York"),
      ("NC", "North Carolina"),
      ("ND", "North Dakota"),
      ("MP", "Northern Mariana Islands") ] +
    [ ("OH", "Ohio"),
      ("OK", "Oklahoma"),
      ("OR", "Oregon"),
      ("PW", "Palau"),
      ("PA", "Pennsylvania"),
      ("PR", "Puerto Rico"),
      ("RI", "Rhode Island"),
      ("SC", "South Carolina"),
      ("SD", "South Dakota"),
      ("TN", "Tennessee") ] +
    [ ("TX", "Texas"),
      ("UT", "Utah"),
      ("VT", "Vermont"),
      ("VI", "Virgin Islands"),
      ("VA", "Virginia"),
      ("WA", "Washington"),
      ("WV", "West Virginia"),
      ("WI", "Wisconsin"),
      ("WY", "Wyoming") ]

  /** The codes of a table, in order. */
  function Codes(table: seq<(string, string)>): (r: seq<string>)
    ensures |r| == |table| && forall i :: 0 <= i < |r| ==> r[i] == table[i].0
  {
    if table == [] then [] else [table[0].0] + Codes(table[1..])
  }

  /** The entry with key `code`, searched from the front: `isset(STATES[$code])`. */
  function IndexOf(table: seq<(string, string)>, code: string): (r: Option<nat>)
    ensures r.Some? ==> r.value < |table| && table[r.value].0 == code
    ensures r.None? <==> code !in Codes(table)
  {
    if table == [] then None
    else if table[0].0 == code then Some(0)
    else match IndexOf(table[1..], code)
      case None => None
      case Some(i) => Some(i + 1)
  }

  /** getNameByCode: the name, or the InvalidArgumentException message. */
  function GetNameByCode(code: string): (r: Result<string, string>)
    ensures r.Ok? <==> code in Codes(States)
    ensures r.Ok? ==> (code, r.value) in States
    ensures r.Err? ==> r.error == "Invalid US State Code: " + code
  {
    match IndexOf(States, code)
    case None => Err("Invalid US State Code: " + code)
    case Some(i) => Ok(States[i].1)
  }

  /** getAllStates: the whole table. */
  function GetAllStates(): (r: seq<(string, string)>)
    ensures |r| == 59
  {
    States
  }

  /** The table position of a code, read off its two letters; -1 for anything else. */
  function Slot(c: string): int {
    if |c| != 2 then -1
    else match (c[0], c[1])
      case ('A', 'L') => 0
      case ('A', 'K') => 1
      case ('A', 'S') => 2
      case ('A', 'Z') => 3
      case ('A', 'R') => 4
      case ('C', 'A') => 5
      case ('C', 'O') => 6
      case ('C', 'T') => 7
      case ('D', 'E') => 8
      case ('D', 'C') => 9
      case ('F', 'M') => 10
      case ('F', 'L') => 11
      case ('G', 'A') => 12
      case ('G', 'U') => 13
      case ('H', 'I') => 14
      case ('I', 'D') => 15
      case ('I', 'L') => 16
      case ('I', 'N') => 17
      case ('I', 'A') => 18
      case ('K', 'S') => 19
      case ('K', 'Y') => 20
      case ('L', 'A') => 21
      case ('M', 'E') => 22
      case ('M', 'H') => 23
      case ('M', 'D') => 24
      case ('M', 'A') => 25
      case ('M', 'I') => 26
      case ('M', 'N') => 27
      case ('M', 'S') => 28
      case ('M', 'O') => 29
      case ('M', 'T') => 30
      case ('N', 'E') => 31
      case ('N', 'V') => 32
      case ('N', 'H') => 33
      case ('N', 'J') => 34
      case ('N', 'M') => 35
      case ('N', 'Y') => 36
      case ('N', 'C') => 37
      case ('N', 'D') => 38
      case ('M', 'P') => 39
      case ('O', 'H') => 40
      case ('O', 'K') => 41
      case ('O', 'R') => 42
      case ('P', 'W') => 43
      case ('P', 'A') => 44
      case ('P', 'R') => 45
      case ('R', 'I') => 46
      case ('S', 'C') => 47
      case ('S', 'D') => 48
      case ('T', 'N') => 49
      case ('T', 'X') => 50
      case ('U', 'T') => 51
      case ('V', 'T') => 52
      case ('V', 'I') => 53
      case ('V', 'A') => 54
      case ('W', 'A') => 55
      case ('W', 'V') => 56
      case ('W', 'I') => 57
      case ('W', 'Y') => 58
      case _ => -1
  }

  /** Every code of the table sits at its own slot. */
  lemma SlotsOfTable()
    ensures forall i :: 0 <= i < |States| ==> Slot(States[i].0) == i
  {
    SlotsOfRows0();
    SlotsOfRows1();
    SlotsOfRows2();
    SlotsOfRows3();
    SlotsOfRows4();
    SlotsOfRows5();
  }

  lemma SlotsOfRows0()
    ensures forall i :: 0 <= i < 10 ==> Slot(States[i].0) == i
  {
    forall i | 0 <= i < 10 ensures Slot(States[i].0) == i {
      assert i == 0 || i == 1 || i == 2 || i == 3 || i == 4 || i == 5 || i == 6 || i == 7 || i == 8 || i == 9;
    }
  }

  lemma SlotsOfRows1()
    ensures forall i :: 10 <= i < 20 ==> Slot(States[i].0) == i
  {
    forall i | 10 <= i < 20 ensures Slot(States[i].0) == i {
      assert i == 10 || i == 11 || i == 12 || i == 13 || i == 14 || i == 15 || i == 16 || i == 17 || i == 18 || i == 19;
    }
  }

  lemma SlotsOfRows2()
    ensures forall i :: 20 <= i < 30 ==> Slot(States[i].0) == i
  {
    forall i | 20 <= i < 30 ensures Slot(States[i].0) == i {
      assert i == 20 || i == 21 || i == 22 || i == 23 || i == 24 || i == 25 || i == 26 || i == 27 || i == 28 || i == 29;
    }
  }

  lemma SlotsOfRows3()
    ensures forall i :: 30 <= i < 40 ==> Slot(States[i].0) == i
  {
    forall i | 30 <= i < 40 ensures Slot(States[i].0) == i {
      assert i == 30 || i == 31 || i == 32 || i == 33 || i == 34 || i == 35 || i == 36 || i == 37 || i == 38 || i == 39;
    }
  }

  lemma SlotsOfRows4()
    ensures forall i :: 40 <= i < 50 ==> Slot(States[i].0) == i
  {
    forall i | 40 <= i < 50 ensures Slot(States[i].0) == i {
      assert i == 40 || i == 41 || i == 42 || i == 43 || i == 44 || i == 45 || i == 46 || i == 47 || i == 48 || i == 49;
    }
  }

  lemma SlotsOfRows5()
    ensures forall i :: 50 <= i < 59 ==> Slot(States[i].0) == i
  {
    forall i | 50 <= i < 59 ensures Slot(States[i].0) == i {
      assert i == 50 || i == 51 || i == 52 || i == 53 || i == 54 || i == 55 || i == 56 || i == 57 || i == 58;
    }
  }

  /** The table is a function: no code appears twice. */
  lemma CodesDistinct()
    ensures forall i, j :: 0 <= i < j < |States| ==> States[i].0 != States[j].0
  {
    SlotsOfTable();
  }

  /** A listed code always finds its own name, so the lookup agrees with the table. */
  lemma LookupAgreesWithTable(i: nat)
    requires i < |States|
    ensures GetNameByCode(States[i].0) == Ok(States[i].1)
  {
    CodesDistinct();
    assert States[i].0 in Codes(States);
  }

  lemma InCodes(table: seq<(string, string)>, code: string)
    ensures code in Codes(table) <==> exists i :: 0 <= i < |table| && table[i].0 == code
  {
    var r := Codes(table);
    if code in r {
      var i :| 0 <= i < |r| && r[i] == code;
    }
  }

  /** getNameByCode succeeds exactly on the keys of getAllStates. */
  lemma SucceedsOnAllStates(code: string)
    ensures GetNameByCode(code).Ok? <==> exists i :: 0 <= i < |GetAllStates()| && GetAllStates()[i].0 == code
  {
    InCodes(GetAllStates(), code);
  }

  /** Anything that is not one of the listed two-letter codes is rejected. */
  lemma UnlistedRejected(code: string)
    requires Slot(code) == -1
    ensures GetNameByCode(code).Err?
  {
    SlotsOfTable();
    InCodes(States, code);
  }

  /** "CO" is Colorado. */
  lemma Colorado()
    ensures GetNameByCode("CO") == Ok("Colorado")
  {
    assert States[6] == ("CO", "Colorado");
    LookupAgreesWithTable(6);
  }

  /** Keys are compared exactly: lower-case "co" is rejected. */
  lemma CaseSensitive()
    ensures GetNameByCode("co").Err?
  {
    assert Slot("co") == -1;
    UnlistedRejected("co");
  }
}
