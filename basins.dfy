/**
 * `BASIN_COORDS` and `getBasinCoords`: the map position of an Argentine oil
 * basin by name: exact key, then key ignoring case, then keyword rules.
 */
module Basins {
  import opened Wrappers
  import opened Text

  /** A map position, longitude first. */
  datatype Coord = Coord(lon: real, lat: real)

  const NeuquenMedanito := Coord(-69.126565, -38.543328)
  const RioNegroMedanito := Coord(-67.385008, -38.956695)
  const LaPampaMedanito := Coord(-67.965527, -37.288923)
  const NeuquinaMendoza := Coord(-69.378964, -35.685917)
  /** The Chubut sub-zone is placed at the midpoint of its longitude and latitude ranges. */
  const ChubutMidpoint := Coord((-71.0 + -66.0) / 2.0, (-47.0 + -45.0) / 2.0)
  const GolfoSanJorge := Coord(-68.5, -46.0)
  const FuegoOffShore := Coord(-67.0, -54.0)
  const SantaCruzOnShore := Coord(-70.0, -50.0)
  const SantaCruzOffShore := Coord(-68.0, -52.0)
  const SanSebastian := Coord(-66.5, -54.5)
  const Austral := Coord(-68.5, -52.0)
  const NoroesteSalta := Coord(-65.5, -24.5)
  const Cuyana := Coord(-68.8, -32.6)

  /** The table in declaration order, which is the order `Object.keys` lists it in. */
  const Table: seq<(string, Coord)> := [
    ("Neuquina – Neuquén (Medanito)", NeuquenMedanito),
    ("Neuquina – Río Negro (Medanito)", RioNegroMedanito),
    ("Neuquina – La Pampa (Medanito)", LaPampaMedanito),
    ("Neuquina – Mendoza", NeuquinaMendoza),
    ("Neuquina", NeuquenMedanito),
    ("Cuenca Neuquina", NeuquenMedanito),
    ("Golfo San Jorge – Chubut (Escalante / Cañadón Seco)", ChubutMidpoint),
    ("Golfo San Jorge", GolfoSanJorge),
    ("Cuenca del Golfo San Jorge", GolfoSanJorge),
    ("Austral – Tierra del Fuego Off Shore (Hidra)", FuegoOffShore),
    ("Austral – Santa Cruz On Shore", SantaCruzOnShore),
    ("Austral – Santa Cruz Off Shore", SantaCruzOffShore),
    ("Austral – Tierra del Fuego – San Sebastián", SanSebastian),
    ("Austral", Austral),
    ("Cuenca Austral", Austral),
    ("Noroeste – Salta", NoroesteSalta),
    ("Noroeste", NoroesteSalta),
    ("Cuenca del Noroeste", NoroesteSalta),
    ("Cuyana", Cuyana),
    ("Cuenca Cuyana", Cuyana)
  ]

  /** `BASIN_COORDS[name]`: the entry whose key is `name`. */
  function LookupExact(t: seq<(string, Coord)>, name: string): Option<Coord>
    decreases |t|
  {
    if t == [] then None
    else if t[0].0 == name then Some(t[0].1)
    else LookupExact(t[1..], name)
  }

  /** `Object.keys(BASIN_COORDS).find((k) => k.toLowerCase() === lname)`, then its entry. */
  function LookupFolded(t: seq<(string, Coord)>, lname: string): Option<Coord>
    decreases |t|
  {
    if t == [] then None
    else if Lower(t[0].0) == lname then Some(t[0].1)
    else LookupFolded(t[1..], lname)
  }

  /** The keyword rules, tried in order on the lower-cased name. */
  function Heuristic(n: string): Option<Coord> {
    if Contains(n, "neuquina") && Contains(n, "neuqu") then Some(NeuquenMedanito)
    else if Contains(n, "neuquina") && Contains(n, "río negro") then Some(RioNegroMedanito)
    else if Contains(n, "neuquina") && Contains(n, "la pampa") then Some(LaPampaMedanito)
    else if Contains(n, "neuquina") && Contains(n, "mendoza") then Some(NeuquinaMendoza)
    else if Contains(n, "golfo") || Contains(n, "san jorge") then Some(GolfoSanJorge)
    else if Contains(n, "austral") && Contains(n, "fuego") && Contains(n, "off") then Some(FuegoOffShore)
    else if Contains(n, "austral") && Contains(n, "santa cruz") && Contains(n, "off") then Some(SantaCruzOffShore)
    else if Contains(n, "austral") && Contains(n, "santa cruz") then Some(SantaCruzOnShore)
    else if Contains(n, "austral") && Contains(n, "san sebastián") then Some(SanSebastian)
    else if Contains(n, "noroeste") || Contains(n, "salta") then Some(NoroesteSalta)
    else None
  }

  /** `getBasinCoords(name)`. */
  function GetBasinCoords(name: string): Option<Coord> {
    if name == [] then None
    else match LookupExact(Table, name)
      case Some(c) => Some(c)
      case None =>
        match LookupFolded(Table, Lower(name))
        case Some(c) => Some(c)
        case None => Heuristic(Lower(name))
  }

  // ------------------------------------------------- no two keys fold together

  /** The length of each key, in table order. */
  const KeyLength := [29, 31, 30, 18, 8, 15, 51, 15, 26, 44, 29, 30, 42, 7, 14, 16, 8, 19, 6, 13]
  /** The second letter of each key, lower-cased, in table order. */
  const SecondLetter := "eeeeeuoouuuuuuuoouuu"

  lemma KeySignature(i: nat)
    requires i < |Table|
    ensures |Table[i].0| == KeyLength[i] && LowerChar(Table[i].0[1]) == SecondLetter[i]
  {
    match i
    case 0 => case 1 => case 2 => case 3 => case 4 =>
    case 5 => case 6 => assert Table[6].0 == "Golfo San Jorge – Chubut (Escalante" + " / Cañadón Seco)"; case 7 => case 8 => case 9 =>
    case 10 => case 11 => case 12 => case 13 => case 14 =>
    case 15 => case 16 => case 17 => case 18 => case 19 =>
  }

  /** No two keys have both the same length and the same second letter. */
  lemma SignaturesDistinct(i: nat, j: nat)
    requires i < j < |Table|
    ensures KeyLength[i] != KeyLength[j] || SecondLetter[i] != SecondLetter[j]
  {
  }

  /** No two keys are equal ignoring case, so no two keys are equal. */
  lemma FoldedKeysDistinct(i: nat, j: nat)
    requires i < |Table| && j < |Table| && i != j
    ensures Lower(Table[i].0) != Lower(Table[j].0)
  {
    KeySignature(i);
    KeySignature(j);
    if i < j { SignaturesDistinct(i, j); } else { SignaturesDistinct(j, i); }
    FoldedDiffer(Table[i].0, Table[j].0);
  }

  /** Strings of different lengths, or with different folded second letters, fold differently. */
  lemma FoldedDiffer(a: string, b: string)
    requires |a| >= 2 && |b| >= 2
    requires |a| != |b| || LowerChar(a[1]) != LowerChar(b[1])
    ensures Lower(a) != Lower(b)
  {
    assert |Lower(a)| == |a| && |Lower(b)| == |b|;
    assert Lower(a)[1] == LowerChar(a[1]) && Lower(b)[1] == LowerChar(b[1]);
  }

  /** The folded lookup of an entry's folded key finds it when no earlier key folds the same. */
  lemma {:induction false} FoldedFirst(t: seq<(string, Coord)>, i: nat)
    requires i < |t|
    requires forall j :: 0 <= j < i ==> Lower(t[j].0) != Lower(t[i].0)
    ensures LookupFolded(t, Lower(t[i].0)) == Some(t[i].1)
    decreases i
  {
    if i > 0 {
      assert forall j :: 0 <= j < i - 1 ==> t[1..][j] == t[j + 1];
      FoldedFirst(t[1..], i - 1);
    }
  }

  /** A hit of the exact lookup is an entry whose key is the name. */
  lemma {:induction false} ExactHit(t: seq<(string, Coord)>, name: string)
    requires LookupExact(t, name).Some?
    ensures exists j :: 0 <= j < |t| && t[j].0 == name && t[j].1 == LookupExact(t, name).value
    decreases |t|
  {
    if t[0].0 != name {
      ExactHit(t[1..], name);
      var j :| 0 <= j < |t[1..]| && t[1..][j].0 == name && t[1..][j].1 == LookupExact(t, name).value;
      assert t[j + 1] == t[1..][j];
    } else {
      assert t[0].0 == name;
    }
  }

  /**
   * A name equal to a key ignoring case, the key itself included, gets that
   * key's coordinates.
   */
  lemma KeyIgnoringCase(name: string, i: nat)
    requires i < |Table| && Lower(name) == Lower(Table[i].0)
    ensures GetBasinCoords(name) == Some(Table[i].1)
  {
    KeySignature(i);
    assert |name| == |Lower(name)|;
    match LookupExact(Table, name)
    case Some(c) =>
      ExactHit(Table, name);
      var j :| 0 <= j < |Table| && Table[j].0 == name && Table[j].1 == c;
      if j != i { FoldedKeysDistinct(i, j); }
    case None =>
      forall j | 0 <= j < i ensures Lower(Table[j].0) != Lower(Table[i].0) {
        FoldedKeysDistinct(j, i);
      }
      FoldedFirst(Table, i);
  }

  /** Every key, sub-zone keys included, gets its own coordinates. */
  lemma KeysResolve(i: nat)
    requires i < |Table|
    ensures GetBasinCoords(Table[i].0) == Some(Table[i].1)
  {
    KeyIgnoringCase(Table[i].0, i);
  }

  lemma EmptyName()
    ensures GetBasinCoords("") == None
  {
  }
  /** A hit of the folded lookup is an entry whose key folds to the name. */
  lemma {:induction false} FoldedHit(t: seq<(string, Coord)>, lname: string)
    requires LookupFolded(t, lname).Some?
    ensures exists j :: 0 <= j < |t| && Lower(t[j].0) == lname && t[j].1 == LookupFolded(t, lname).value
    decreases |t|
  {
    if Lower(t[0].0) != lname {
      FoldedHit(t[1..], lname);
      var j :| 0 <= j < |t[1..]| && Lower(t[1..][j].0) == lname && t[1..][j].1 == LookupFolded(t, lname).value;
      assert t[j + 1] == t[1..][j];
    } else {
      assert Lower(t[0].0) == lname;
    }
  }

  /** A name that equals no key ignoring case goes to the keyword rules. */
  lemma Fallback(name: string)
    requires name != []
    requires forall i :: 0 <= i < |Table| ==> Lower(Table[i].0) != Lower(name)
    ensures GetBasinCoords(name) == Heuristic(Lower(name))
  {
    if LookupExact(Table, name).Some? {
      ExactHit(Table, name);
    }
    if LookupFolded(Table, Lower(name)).Some? {
      FoldedHit(Table, Lower(name));
    }
  }

  // ------------------------------------------------------------ keyword rules

  /** Any name mentioning "neuquina" goes to Neuquén (Medanito): "neuqu" occurs in "neuquina". */
  lemma NeuquinaRule(n: string)
    requires Contains(n, "neuquina")
    ensures Heuristic(n) == Some(NeuquenMedanito)
  {
    assert OccursAt("neuquina", "neuqu", 0);
    ContainsTransitive(n, "neuquina", "neuqu");
  }

  /**
   * So the Río Negro, La Pampa and Mendoza rules never apply: the rules give
   * those positions to no name at all.
   */
  lemma NeuquinaSubzonesUnreachable(n: string)
    ensures Heuristic(n) != Some(RioNegroMedanito)
    ensures Heuristic(n) != Some(LaPampaMedanito)
    ensures Heuristic(n) != Some(NeuquinaMendoza)
  {
    if Contains(n, "neuquina") {
      NeuquinaRule(n);
    }
  }

  /** "golfo" or "san jorge" wins over every Austral rule when "neuquina" is absent. */
  lemma GolfoBeforeAustral(n: string)
    requires !Contains(n, "neuquina")
    requires Contains(n, "golfo") || Contains(n, "san jorge")
    ensures Heuristic(n) == Some(GolfoSanJorge)
  {
  }

  /**
   * Among Austral names, "fuego" with "off" is Hidra, and otherwise "santa
   * cruz" is offshore exactly when "off" occurs.
   */
  lemma AustralRules(n: string)
    requires Contains(n, "austral")
    requires !Contains(n, "neuquina") && !Contains(n, "golfo") && !Contains(n, "san jorge")
    ensures Contains(n, "fuego") && Contains(n, "off") ==> Heuristic(n) == Some(FuegoOffShore)
    ensures !(Contains(n, "fuego") && Contains(n, "off")) && Contains(n, "santa cruz") ==>
      Heuristic(n) == (if Contains(n, "off") then Some(SantaCruzOffShore) else Some(SantaCruzOnShore))
    ensures !(Contains(n, "fuego") && Contains(n, "off")) && !Contains(n, "santa cruz") && Contains(n, "san sebastián") ==>
      Heuristic(n) == Some(SanSebastian)
  {
  }

  /** Outside the earlier rules, "noroeste" or "salta" is the Noroeste – Salta position. */
  lemma NoroesteRule(n: string)
    requires !Contains(n, "neuquina") && !Contains(n, "golfo") && !Contains(n, "san jorge") && !Contains(n, "austral")
    requires Contains(n, "noroeste") || Contains(n, "salta")
    ensures Heuristic(n) == Some(NoroesteSalta)
  {
  }

  /** A name with none of the keywords has no position. */
  lemma NoKeyword(n: string)
    requires !Contains(n, "neuquina") && !Contains(n, "golfo") && !Contains(n, "san jorge")
    requires !Contains(n, "austral") && !Contains(n, "noroeste") && !Contains(n, "salta")
    ensures Heuristic(n) == None
  {
  }

  /** Every position the rules give is the position of some table entry. */
  lemma HeuristicInTable(n: string)
    ensures Heuristic(n).Some? ==> exists i :: 0 <= i < |Table| && Table[i].1 == Heuristic(n).value
  {
    NeuquinaSubzonesUnreachable(n);
    assert Table[0].1 == NeuquenMedanito && Table[7].1 == GolfoSanJorge;
    assert Table[9].1 == FuegoOffShore && Table[10].1 == SantaCruzOnShore && Table[11].1 == SantaCruzOffShore;
    assert Table[12].1 == SanSebastian && Table[15].1 == NoroesteSalta;
  }

  /** Every position `getBasinCoords` returns is the position of some table entry. */
  lemma ResultInTable(name: string)
    ensures GetBasinCoords(name).Some? ==> exists i :: 0 <= i < |Table| && Table[i].1 == GetBasinCoords(name).value
  {
    if name != [] {
      if LookupExact(Table, name).Some? {
        ExactHit(Table, name);
      } else if LookupFolded(Table, Lower(name)).Some? {
        FoldedHit(Table, Lower(name));
      } else {
        HeuristicInTable(Lower(name));
      }
    }
  }

  /** The Chubut sub-zone sits where the whole Golfo San Jorge basin does. */
  lemma ChubutIsGolfoSanJorge()
    ensures ChubutMidpoint == Coord(-68.5, -46.0) == GolfoSanJorge
    ensures GetBasinCoords(Table[6].0) == GetBasinCoords(Table[7].0)
  {
    KeysResolve(6);
    KeysResolve(7);
  }
}
