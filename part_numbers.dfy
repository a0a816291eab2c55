/**
 * DatabaseManager.generate_part_number: validate the request, build the
 * fixed-width prefix of the scope, read the fixed-width suffix of every
 * existing name that carries the prefix, and return the prefix followed by
 * the smallest free suffix.
 *
 * Competition ('172') names: 172-{code}-{P|A}{SS:02d}{###:03d}
 * Continuing ('nfr') names:  NFR-{SSSS:04d}-{P|A}{####:04d}
 *
 * The database query is replaced by `names`: the names stored in the parts
 * collection (for a part) or the assemblies collection (for an assembly).
 */
module PartNumbers {
  import opened Basics
  import opened Decimal
  import opened Slots

  /** The two exception classes the generator raises, with their messages. */
  datatype PartNumberError = ValueError(message: string) | RuntimeError(message: string)

  const BadProjectType := "project_type must be either '172' or 'nfr'"
  const BadItemType := "item_type must be either 'part' or 'assembly'"
  const BadProjectIdentifier := "project_identifier for 172 projects must be in format like '24A', '25B', '25C'"
  const BadSubsystem172 := "subsystem must be between 0 and 99 for 172 projects"
  const BadSubsystemNfr := "subsystem must be between 0 and 9999 for NFR projects"
  const Exhausted172 := "No available part numbers in range 000-999"
  const ExhaustedNfr := "No available part numbers in range 0000-9999"

  /** The numbering scheme of one scope: the shared prefix and the width of the number after it. */
  datatype Scheme = Scheme(prefix: string, width: nat, exhausted: string)

  predicate IsItemType(itemType: string) {
    itemType == "part" || itemType == "assembly"
  }

  function ItemLetter(itemType: string): char {
    if itemType == "part" then 'P' else 'A'
  }

  function Prefix172(code: string, letter: char, subsystem: nat): string
    requires subsystem < 100
  {
    "172-" + code + "-" + [letter] + Pad(subsystem, 2)
  }

  function PrefixNfr(letter: char, subsystem: nat): string
    requires subsystem < 10000
  {
    "NFR-" + Pad(subsystem, 4) + "-" + [letter]
  }

  /** The checks the generator makes before it looks at any name, in the order it makes them. */
  function CheckRequest(projectType: string, projectIdentifier: string, subsystem: int, itemType: string)
    : Result<Scheme, PartNumberError>
  {
    if projectType != "172" && projectType != "nfr" then Failure(ValueError(BadProjectType))
    else if !IsItemType(itemType) then Failure(ValueError(BadItemType))
    else if projectType == "172" && |projectIdentifier| < 3 then Failure(ValueError(BadProjectIdentifier))
    else if projectType == "172" && !(0 <= subsystem <= 99) then Failure(ValueError(BadSubsystem172))
    else if projectType == "nfr" && !(0 <= subsystem <= 9999) then Failure(ValueError(BadSubsystemNfr))
    else if projectType == "172" then
      Success(Scheme(Prefix172(projectIdentifier, ItemLetter(itemType), subsystem), 3, Exhausted172))
    else
      Success(Scheme(PrefixNfr(ItemLetter(itemType), subsystem), 4, ExhaustedNfr))
  }

  /**
   * The number an existing name holds in the scope: present when the name
   * starts with the prefix, is long enough for the suffix, and the suffix is
   * all digits.
   */
  function SuffixOf(name: string, prefix: string, width: nat): Option<nat> {
    if |name| >= |prefix| + width && name[..|prefix|] == prefix
    then ParseNat(name[|prefix|..|prefix| + width])
    else None
  }

  /** The set `existing_numbers` after reading every name in order. */
  function UsedSuffixes(names: seq<string>, prefix: string, width: nat): set<int> {
    if names == [] then {}
    else
      var last := SuffixOf(names[|names| - 1], prefix, width);
      UsedSuffixes(names[..|names| - 1], prefix, width) + (if last.Some? then {last.value} else {})
  }

  /** What generate_part_number returns or raises, given the names already stored. */
  function PartNumber(projectType: string, projectIdentifier: string, subsystem: int, itemType: string,
                      names: seq<string>): Result<string, PartNumberError>
  {
    match CheckRequest(projectType, projectIdentifier, subsystem, itemType)
    case Failure(e) => Failure(e)
    case Success(sc) =>
      match LowestFree(UsedSuffixes(names, sc.prefix, sc.width), Pow10(sc.width))
      case None => Failure(RuntimeError(sc.exhausted))
      case Some(k) => Success(sc.prefix + Pad(k, sc.width))
  }

  /** The loop over the query results that fills `existing_numbers`. */
  method ExistingNumbers(names: seq<string>, prefix: string, width: nat) returns (existing: set<int>)
    ensures existing == UsedSuffixes(names, prefix, width)
  {
    existing := {};
    for i := 0 to |names|
      invariant existing == UsedSuffixes(names[..i], prefix, width)
    {
      assert names[..i + 1][..i] == names[..i];
      var name := names[i];
      if |name| >= |prefix| + width && name[..|prefix|] == prefix {
        var number := ParseNat(name[|prefix|..|prefix| + width]);
        if number.Some? {
          existing := existing + {number.value};
        }
      }
    }
    assert names[..|names|] == names;
  }

  method GeneratePartNumber(projectType: string, projectIdentifier: string, subsystem: int, itemType: string,
                            names: seq<string>) returns (r: Result<string, PartNumberError>)
    ensures r == PartNumber(projectType, projectIdentifier, subsystem, itemType, names)
  {
    if projectType != "172" && projectType != "nfr" {
      return Failure(ValueError(BadProjectType));
    }
    if itemType != "part" && itemType != "assembly" {
      return Failure(ValueError(BadItemType));
    }
    if projectType == "172" {
      if |projectIdentifier| < 3 {
        return Failure(ValueError(BadProjectIdentifier));
      }
    }
    if projectType == "172" {
      if subsystem < 0 || subsystem > 99 {
        return Failure(ValueError(BadSubsystem172));
      }
    } else {
      if subsystem < 0 || subsystem > 9999 {
        return Failure(ValueError(BadSubsystemNfr));
      }
    }
    var letter := if itemType == "part" then 'P' else 'A';
    if projectType == "172" {
      var prefix := "172-" + projectIdentifier + "-" + [letter] + Pad(subsystem, 2);
      var existing := ExistingNumbers(names, prefix, 3);
      var k := FirstFree(existing, 1000);
      if k.Some? {
        return Success(prefix + Pad(k.value, 3));
      }
      return Failure(RuntimeError(Exhausted172));
    } else {
      var prefix := "NFR-" + Pad(subsystem, 4) + "-" + [letter];
      var existing := ExistingNumbers(names, prefix, 4);
      var k := FirstFree(existing, 10000);
      if k.Some? {
        return Success(prefix + Pad(k.value, 4));
      }
      return Failure(RuntimeError(ExhaustedNfr));
    }
  }

  /** Each ValueError is raised exactly when its check is the first one to fail. */
  lemma PartNumberRejects(projectType: string, projectIdentifier: string, subsystem: int, itemType: string,
                          names: seq<string>)
    ensures var r := PartNumber(projectType, projectIdentifier, subsystem, itemType, names);
            && (r == Failure(ValueError(BadProjectType)) <==> projectType != "172" && projectType != "nfr")
            && (r == Failure(ValueError(BadItemType)) <==>
                 (projectType == "172" || projectType == "nfr") && !IsItemType(itemType))
            && (r == Failure(ValueError(BadProjectIdentifier)) <==>
                 projectType == "172" && IsItemType(itemType) && |projectIdentifier| < 3)
            && (r == Failure(ValueError(BadSubsystem172)) <==>
                 projectType == "172" && IsItemType(itemType) && |projectIdentifier| >= 3 && !(0 <= subsystem <= 99))
            && (r == Failure(ValueError(BadSubsystemNfr)) <==>
                 projectType == "nfr" && IsItemType(itemType) && !(0 <= subsystem <= 9999))
  {
  }

  /** A name built from a prefix and a padded number yields that number back as its suffix. */
  lemma SuffixOfFormatted(prefix: string, k: nat, width: nat)
    requires 0 < width && k < Pow10(width)
    ensures SuffixOf(prefix + Pad(k, width), prefix, width) == Some(k)
  {
    var name := prefix + Pad(k, width);
    assert name[..|prefix|] == prefix;
    assert name[|prefix|..|prefix| + width] == Pad(k, width);
    ParsePad(k, width);
  }

  /**
   * Competition scope: the result is 172-{code}-{P|A}{SS:02d} followed by the
   * smallest number of [0, 999] no stored name of the scope holds, written in
   * three digits; the generator raises RuntimeError exactly when all 1000 are taken.
   */
  lemma PartNumberFor172(code: string, subsystem: int, itemType: string, names: seq<string>)
    requires |code| >= 3 && 0 <= subsystem <= 99 && IsItemType(itemType)
    ensures var prefix := "172-" + code + "-" + [ItemLetter(itemType)] + Pad(subsystem, 2);
            var used := UsedSuffixes(names, prefix, 3);
            var r := PartNumber("172", code, subsystem, itemType, names);
            && (r.Failure? <==> Full(used, 1000))
            && (r.Failure? ==> r.error == RuntimeError(Exhausted172))
            && (r.Success? ==> |r.value| == |prefix| + 3 && r.value[..|prefix|] == prefix
                               && SuffixOf(r.value, prefix, 3).Some?
                               && IsLowestFree(SuffixOf(r.value, prefix, 3).value, used, 1000))
  {
    var prefix := "172-" + code + "-" + [ItemLetter(itemType)] + Pad(subsystem, 2);
    var used := UsedSuffixes(names, prefix, 3);
    var k := LowestFree(used, 1000);
    if k.Some? {
      SuffixOfFormatted(prefix, k.value, 3);
    }
  }

  /**
   * Continuing scope: the result is NFR-{SSSS:04d}-{P|A} followed by the
   * smallest number of [0, 9999] no stored name of the scope holds, written in
   * four digits; the generator raises RuntimeError exactly when all 10000 are taken.
   */
  lemma PartNumberForNfr(projectIdentifier: string, subsystem: int, itemType: string, names: seq<string>)
    requires 0 <= subsystem <= 9999 && IsItemType(itemType)
    ensures var prefix := "NFR-" + Pad(subsystem, 4) + "-" + [ItemLetter(itemType)];
            var used := UsedSuffixes(names, prefix, 4);
            var r := PartNumber("nfr", projectIdentifier, subsystem, itemType, names);
            && (r.Failure? <==> Full(used, 10000))
            && (r.Failure? ==> r.error == RuntimeError(ExhaustedNfr))
            && (r.Success? ==> |r.value| == |prefix| + 4 && r.value[..|prefix|] == prefix
                               && SuffixOf(r.value, prefix, 4).Some?
                               && IsLowestFree(SuffixOf(r.value, prefix, 4).value, used, 10000))
  {
    var prefix := "NFR-" + Pad(subsystem, 4) + "-" + [ItemLetter(itemType)];
    var used := UsedSuffixes(names, prefix, 4);
    var k := LowestFree(used, 10000);
    if k.Some? {
      SuffixOfFormatted(prefix, k.value, 4);
    }
  }

  /** A number is in use exactly when some stored name holds it as its suffix. */
  lemma {:induction false} UsedSuffixesMeaning(names: seq<string>, prefix: string, width: nat, v: int)
    ensures v in UsedSuffixes(names, prefix, width) <==>
            exists i :: 0 <= i < |names| && SuffixOf(names[i], prefix, width) == Some(v)
  {
    if names != [] {
      var init := names[..|names| - 1];
      UsedSuffixesMeaning(init, prefix, width, v);
      if v in UsedSuffixes(init, prefix, width) {
        var i :| 0 <= i < |init| && SuffixOf(init[i], prefix, width) == Some(v);
        assert names[i] == init[i];
      }
      if exists i :: 0 <= i < |names| && SuffixOf(names[i], prefix, width) == Some(v) {
        var i :| 0 <= i < |names| && SuffixOf(names[i], prefix, width) == Some(v);
        if i < |init| {
          assert init[i] == names[i];
        }
      }
    }
  }

  /** Names that hold no number of the scope add nothing to the used set. */
  lemma {:induction false} UsedSuffixesIgnore(names: seq<string>, extra: seq<string>, prefix: string, width: nat)
    requires forall i :: 0 <= i < |extra| ==> SuffixOf(extra[i], prefix, width).None?
    ensures UsedSuffixes(names + extra, prefix, width) == UsedSuffixes(names, prefix, width)
  {
    if extra != [] {
      var init := extra[..|extra| - 1];
      assert (names + extra)[..|names + extra| - 1] == names + init;
      assert (names + extra)[|names + extra| - 1] == extra[|extra| - 1];
      UsedSuffixesIgnore(names, init, prefix, width);
    } else {
      assert names + extra == names;
    }
  }

  /**
   * Stored names that do not start with the prefix, are too short to hold the
   * suffix, or whose suffix is not all digits do not change the result.
   */
  lemma UnreadableNamesIgnored(projectType: string, projectIdentifier: string, subsystem: int, itemType: string,
                               names: seq<string>, extra: seq<string>)
    requires CheckRequest(projectType, projectIdentifier, subsystem, itemType).Success?
    requires var sc := CheckRequest(projectType, projectIdentifier, subsystem, itemType).value;
             forall i :: 0 <= i < |extra| ==>
               || |extra[i]| < |sc.prefix| + sc.width
               || extra[i][..|sc.prefix|] != sc.prefix
               || !AllDigits(extra[i][|sc.prefix|..|sc.prefix| + sc.width])
    ensures PartNumber(projectType, projectIdentifier, subsystem, itemType, names + extra)
         == PartNumber(projectType, projectIdentifier, subsystem, itemType, names)
  {
    var sc := CheckRequest(projectType, projectIdentifier, subsystem, itemType).value;
    UsedSuffixesIgnore(names, extra, sc.prefix, sc.width);
  }

  /**
   * Storing the generated name makes the next call in the same scope return a
   * different name: its number is strictly larger, or the range is exhausted.
   */
  lemma NextNumberDiffers(projectType: string, projectIdentifier: string, subsystem: int, itemType: string,
                          names: seq<string>)
    requires PartNumber(projectType, projectIdentifier, subsystem, itemType, names).Success?
    ensures var sc := CheckRequest(projectType, projectIdentifier, subsystem, itemType).value;
            var name := PartNumber(projectType, projectIdentifier, subsystem, itemType, names).value;
            var next := PartNumber(projectType, projectIdentifier, subsystem, itemType, names + [name]);
            && SuffixOf(name, sc.prefix, sc.width).Some?
            && (next.Failure? ==> next.error == RuntimeError(sc.exhausted))
            && (next.Success? ==> SuffixOf(next.value, sc.prefix, sc.width).Some?
                                  && SuffixOf(next.value, sc.prefix, sc.width).value
                                     > SuffixOf(name, sc.prefix, sc.width).value)
  {
    var sc := CheckRequest(projectType, projectIdentifier, subsystem, itemType).value;
    var used := UsedSuffixes(names, sc.prefix, sc.width);
    var bound := Pow10(sc.width);
    var k := LowestFree(used, bound).value;
    var name := sc.prefix + Pad(k, sc.width);
    SuffixOfFormatted(sc.prefix, k, sc.width);
    var names' := names + [name];
    assert names'[..|names'| - 1] == names;
    assert UsedSuffixes(names', sc.prefix, sc.width) == used + {k};
    LowestFreeAfterTaking(used, bound);
    var next := LowestFree(used + {k}, bound);
    if next.Some? {
      SuffixOfFormatted(sc.prefix, next.value, sc.width);
    }
  }

  /** The first part of subsystem 0 of a fresh competition project 25A. */
  lemma FirstPartExample()
    ensures PartNumber("172", "25A", 0, "part", []) == Success("172-25A-P00000")
  {
    assert Pad(0, 2) == "00" && Pad(0, 3) == "000";
    assert Prefix172("25A", 'P', 0) == "172-25A-P00";
    assert CheckRequest("172", "25A", 0, "part") == Success(Scheme("172-25A-P00", 3, Exhausted172));
    assert Pow10(3) == 1000;
    LowestFreeIs(0, {}, 1000);
    assert "172-25A-P00" + Pad(0, 3) == "172-25A-P00000";
  }

  /** A hole left among the stored numbers is filled before the range grows. */
  lemma HoleFillingExample(names: seq<string>)
    requires names == ["172-24A-P01000", "172-24A-P01001", "172-24A-P01003"]
    ensures PartNumber("172", "24A", 1, "part", names) == Success("172-24A-P01002")
  {
    var prefix := "172-24A-P01";
    HoleFillingNames(prefix);
    UsedSuffixesOfThree(prefix, 0, 1, 3, 3);
    HoleFillingScheme();
    LowestFreeIs(2, {0, 1, 3}, 1000);
  }

  lemma HoleFillingScheme()
    ensures CheckRequest("172", "24A", 1, "part") == Success(Scheme("172-24A-P01", 3, Exhausted172))
    ensures Pow10(3) == 1000
  {
    assert Pad(1, 2) == "01";
    assert Prefix172("24A", 'P', 1) == "172-24A-P01";
  }

  lemma HoleFillingNames(prefix: string)
    requires prefix == "172-24A-P01"
    ensures [prefix + Pad(0, 3), prefix + Pad(1, 3), prefix + Pad(3, 3)]
         == ["172-24A-P01000", "172-24A-P01001", "172-24A-P01003"]
    ensures prefix + Pad(2, 3) == "172-24A-P01002"
  {
    assert Pad(0, 3) == "000" && Pad(1, 3) == "001" && Pad(2, 3) == "002" && Pad(3, 3) == "003";
    assert prefix + Pad(0, 3) == "172-24A-P01000";
    assert prefix + Pad(1, 3) == "172-24A-P01001";
    assert prefix + Pad(3, 3) == "172-24A-P01003";
  }

  lemma UsedSuffixesOfThree(prefix: string, a: nat, b: nat, c: nat, width: nat)
    requires 0 < width && a < Pow10(width) && b < Pow10(width) && c < Pow10(width)
    ensures UsedSuffixes([prefix + Pad(a, width), prefix + Pad(b, width), prefix + Pad(c, width)], prefix, width)
         == {a, b, c}
  {
    var names := [prefix + Pad(a, width), prefix + Pad(b, width), prefix + Pad(c, width)];
    SuffixOfFormatted(prefix, a, width);
    SuffixOfFormatted(prefix, b, width);
    SuffixOfFormatted(prefix, c, width);
    assert names[..2][..1] == names[..1];
    assert UsedSuffixes(names[..1], prefix, width) == {a};
    assert UsedSuffixes(names[..2], prefix, width) == {a, b};
  }
}
