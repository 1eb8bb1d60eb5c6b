/** The cleaning step of the Titanic ETL script (`transform` in
    etl_titanic.py): a fixed sequence of rules that turns the raw passenger
    table into the cleaned one. Each rule is a function over the table or
    over one row; `Transform` applies them in the script's order. */
module Titanic {
  import opened Wrappers
  import Stats

  /** A row of the raw CSV. A NaN cell of a nullable column is `None`. */
  datatype Passenger = Passenger(
    passengerId: int,
    survived: int,
    pclass: int,
    name: string,
    sex: string,
    age: Option<real>,
    sibSp: int,
    parch: int,
    ticket: string,
    fare: Option<real>,
    cabin: Option<string>,
    embarked: Option<string>)

  /** A row of the cleaned table: `Cabin` is gone, the fare is known to be
      positive, the port is filled in, and the three derived columns
      `Cabin Deck`, `Family Size` and `Cabin Missing` are added. `Age` can
      still be missing (a class/sex group without any known age). */
  datatype CleanPassenger = CleanPassenger(
    passengerId: int,
    survived: int,
    pclass: int,
    name: string,
    sex: string,
    age: Option<real>,
    sibSp: int,
    parch: int,
    ticket: string,
    fare: real,
    embarked: string,
    cabinDeck: string,
    familySize: int,
    cabinMissing: int)

  /** `x.mode()[0]` raised: some class group has no known port at all. */
  datatype TransformError = EmptyEmbarkedMode

  const UnknownDeck: string := "Unknown"

  // ---------------------------------------------------------------------
  // Rule 1: drop the rows whose fare is not positive
  // ---------------------------------------------------------------------

  /** `df['Fare'] > 0`; NaN compares false, so a missing fare fails it. */
  predicate HasPositiveFare(p: Passenger) {
    p.fare.Some? && p.fare.value > 0.0
  }

  /** `df[df['Fare'] > 0]` */
  function KeepPositiveFare(df: seq<Passenger>): (kept: seq<Passenger>)
    ensures |kept| == Stats.CountIf(df, HasPositiveFare)
    ensures forall k :: 0 <= k < |kept| ==> HasPositiveFare(kept[k])
  {
    if df == [] then []
    else (if HasPositiveFare(df[0]) then [df[0]] else []) + KeepPositiveFare(df[1..])
  }

  /** The filter works row by row: filtering two stretches of rows one after
      the other is filtering them together. With the one-row case, which is
      the definition, this pins the result down: each row with a positive
      fare is kept once, in its original relative order, and no other row. */
  lemma {:induction false} KeepPositiveFareAppend(a: seq<Passenger>, b: seq<Passenger>)
    ensures KeepPositiveFare(a + b) == KeepPositiveFare(a) + KeepPositiveFare(b)
  {
    if a == [] {
      assert a + b == b;
    } else {
      assert (a + b)[0] == a[0] && (a + b)[1..] == a[1..] + b;
      KeepPositiveFareAppend(a[1..], b);
    }
  }

  /** The kept rows are exactly the rows with a positive fare. */
  lemma {:induction false} KeepPositiveFareMembers(df: seq<Passenger>, p: Passenger)
    ensures p in KeepPositiveFare(df) <==> p in df && HasPositiveFare(p)
  {
    if df != [] {
      KeepPositiveFareMembers(df[1..], p);
      assert df == [df[0]] + df[1..];
    }
  }

  // ---------------------------------------------------------------------
  // Rule 2: missing ages get the median of their (Pclass, Sex) group
  // ---------------------------------------------------------------------

  /** The known ages of the rows in the (`pclass`, `sex`) group, in row order. */
  function GroupAges(df: seq<Passenger>, pclass: int, sex: string): (ages: seq<real>)
    ensures ages == [] <==>
      forall i :: 0 <= i < |df| && df[i].pclass == pclass && df[i].sex == sex ==> df[i].age.None?
  {
    if df == [] then []
    else
      var p := df[0];
      (if p.pclass == pclass && p.sex == sex && p.age.Some? then [p.age.value] else [])
      + GroupAges(df[1..], pclass, sex)
  }

  /** The rows of the (`pclass`, `sex`) group whose age is `x`. */
  function AgeIs(pclass: int, sex: string, x: real): Passenger -> bool
  {
    (p: Passenger) => p.pclass == pclass && p.sex == sex && p.age == Some(x)
  }

  /** The group's known ages are all of them, each as often as it occurs in
      the group: the median is taken over exactly these values. */
  lemma {:induction false} GroupAgesCount(df: seq<Passenger>, pclass: int, sex: string, x: real)
    ensures multiset(GroupAges(df, pclass, sex))[x] == Stats.CountIf(df, AgeIs(pclass, sex, x))
  {
    if df != [] {
      GroupAgesCount(df[1..], pclass, sex, x);
    }
  }

  function FillAge(df: seq<Passenger>, p: Passenger): Passenger
  {
    if p.age.Some? then p else p.(age := Stats.Median(GroupAges(df, p.pclass, p.sex)))
  }

  /** `df.groupby(['Pclass','Sex'])['Age'].transform(lambda x: x.fillna(x.median()))` */
  function FillAges(df: seq<Passenger>): (filled: seq<Passenger>)
    ensures |filled| == |df|
    ensures forall i :: 0 <= i < |df| ==> filled[i] == df[i].(age := filled[i].age)
    ensures forall i :: 0 <= i < |df| ==>
      (filled[i].age.None? <==> df[i].age.None? && GroupAges(df, df[i].pclass, df[i].sex) == [])
    ensures forall i :: 0 <= i < |df| && df[i].age.Some? ==> filled[i].age == df[i].age
    ensures forall i :: 0 <= i < |df| && df[i].age.None? ==>
      filled[i].age == Stats.Median(GroupAges(df, df[i].pclass, df[i].sex))
  {
    seq(|df|, i requires 0 <= i < |df| => FillAge(df, df[i]))
  }

  // ---------------------------------------------------------------------
  // Rule 3: missing ports get the mode of their Pclass group
  // ---------------------------------------------------------------------

  /** The known ports of the rows in the `pclass` group, in row order. */
  function GroupPorts(df: seq<Passenger>, pclass: int): (ports: seq<string>)
    ensures ports == [] <==> PortsAllMissing(df, pclass)
  {
    if df == [] then []
    else
      var p := df[0];
      (if p.pclass == pclass && p.embarked.Some? then [p.embarked.value] else [])
      + GroupPorts(df[1..], pclass)
  }

  /** The rows of the `pclass` group whose port is `port`. */
  function PortIs(pclass: int, port: string): Passenger -> bool
  {
    (p: Passenger) => p.pclass == pclass && p.embarked == Some(port)
  }

  /** The group's known ports are all of them, each as often as it occurs in
      the group: the mode is taken over exactly these values. */
  lemma {:induction false} GroupPortsCount(df: seq<Passenger>, pclass: int, port: string)
    ensures Stats.Occurrences(GroupPorts(df, pclass), port) == Stats.CountIf(df, PortIs(pclass, port))
  {
    if df != [] {
      var p := df[0];
      var head := if p.pclass == pclass && p.embarked.Some? then [p.embarked.value] else [];
      Stats.OccurrencesAppend(head, GroupPorts(df[1..], pclass), port);
      GroupPortsCount(df[1..], pclass, port);
    }
  }

  predicate PortsAllMissing(df: seq<Passenger>, pclass: int) {
    forall i :: 0 <= i < |df| && df[i].pclass == pclass ==> df[i].embarked.None?
  }

  /** The group's ports depend only on the `Pclass` and `Embarked` columns. */
  lemma {:induction false} GroupPortsAgree(a: seq<Passenger>, b: seq<Passenger>, pclass: int)
    requires |a| == |b|
    requires forall i :: 0 <= i < |a| ==> a[i].pclass == b[i].pclass && a[i].embarked == b[i].embarked
    ensures GroupPorts(a, pclass) == GroupPorts(b, pclass)
  {
    if a != [] {
      GroupPortsAgree(a[1..], b[1..], pclass);
    }
  }

  function FillPort(df: seq<Passenger>, p: Passenger): Passenger
  {
    if p.embarked.Some? then p else p.(embarked := Stats.Mode(GroupPorts(df, p.pclass)))
  }

  /** `df.groupby('Pclass')['Embarked'].transform(lambda x: x.fillna(x.mode()[0]))`.
      The lambda runs on every class group, and `mode()[0]` raises on a
      group without any known port. */
  function FillEmbarked(df: seq<Passenger>): (r: Result<seq<Passenger>, TransformError>)
    ensures r.Failure? <==> exists i :: 0 <= i < |df| && PortsAllMissing(df, df[i].pclass)
    ensures r.Success? ==> |r.value| == |df|
    ensures r.Success? ==> forall i :: 0 <= i < |df| ==>
      r.value[i] == df[i].(embarked := r.value[i].embarked) && r.value[i].embarked.Some?
      && (df[i].embarked.Some? ==> r.value[i].embarked == df[i].embarked)
      && (df[i].embarked.None? ==> Stats.IsModeOf(GroupPorts(df, df[i].pclass), r.value[i].embarked.value))
  {
    if exists i :: 0 <= i < |df| && GroupPorts(df, df[i].pclass) == [] then Failure(EmptyEmbarkedMode)
    else Success(seq(|df|, i requires 0 <= i < |df| => FillPort(df, df[i])))
  }

  // ---------------------------------------------------------------------
  // Rules 4-8: derived columns
  // ---------------------------------------------------------------------

  /** `df['Cabin'].str[0]`: the first character as a string; NaN for a
      missing cabin and for an empty one. */
  function CabinInitial(cabin: Option<string>): Option<string>
  {
    if cabin.Some? && cabin.value != "" then Some([cabin.value[0]]) else None
  }

  /** `.fillna('Unknown')` on the deck column. */
  function OrUnknown(deck: Option<string>): string
  {
    if deck.Some? then deck.value else UnknownDeck
  }

  /** `SibSp + Parch + 1` */
  function FamilySize(sibSp: int, parch: int): int
  {
    sibSp + parch + 1
  }

  /** `df['Cabin Deck'].eq('Unknown').astype(int)` */
  function CabinMissingFlag(deck: string): int
  {
    if deck == UnknownDeck then 1 else 0
  }

  /** The flag is set exactly for the rows whose cabin was missing or empty:
      a deck taken from a cabin is one character and cannot be "Unknown". */
  lemma CabinMissingIffNoCabin(cabin: Option<string>)
    ensures var flag := CabinMissingFlag(OrUnknown(CabinInitial(cabin)));
      (flag == 1 <==> cabin.None? || cabin.value == "") && (flag == 0 || flag == 1)
  {
    if cabin.Some? && cabin.value != "" {
      assert |OrUnknown(CabinInitial(cabin))| == 1 != |UnknownDeck|;
    }
  }

  /** The cleaned row: every column but `Cabin`, plus the derived ones. */
  function WithoutCabin(p: Passenger, deck: string, familySize: int, cabinMissing: int): CleanPassenger
    requires p.fare.Some? && p.embarked.Some?
  {
    CleanPassenger(p.passengerId, p.survived, p.pclass, p.name, p.sex, p.age,
                   p.sibSp, p.parch, p.ticket, p.fare.value, p.embarked.value,
                   deck, familySize, cabinMissing)
  }

  /** Rules 4-8 on the filled table, column by column: `Cabin Deck`, its
      `Unknown` default, `Family Size` and `Cabin Missing`; `Cabin` is
      dropped when the rows are assembled (the columns after the deck do
      not read it). */
  method DeriveColumns(df: seq<Passenger>) returns (out: seq<CleanPassenger>)
    requires forall i :: 0 <= i < |df| ==> df[i].fare.Some? && df[i].embarked.Some?
    ensures |out| == |df|
    ensures forall i :: 0 <= i < |df| ==>
      var deck := OrUnknown(CabinInitial(df[i].cabin));
      out[i] == WithoutCabin(df[i], deck, FamilySize(df[i].sibSp, df[i].parch), CabinMissingFlag(deck))
  {
    var deck := seq(|df|, i requires 0 <= i < |df| => CabinInitial(df[i].cabin));
    var deckFilled := seq(|deck|, i requires 0 <= i < |deck| => OrUnknown(deck[i]));
    var familySize := seq(|df|, i requires 0 <= i < |df| => FamilySize(df[i].sibSp, df[i].parch));
    var cabinMissing := seq(|deckFilled|, i requires 0 <= i < |deckFilled| => CabinMissingFlag(deckFilled[i]));
    out := seq(|df|, i requires 0 <= i < |df| =>
      WithoutCabin(df[i], deckFilled[i], familySize[i], cabinMissing[i]));
  }

  // ---------------------------------------------------------------------
  // The whole transform
  // ---------------------------------------------------------------------

  /** What the cleaned row `c` must be, given the row `p` it comes from and
      the fare-filtered table `kept` whose groups the imputations use. */
  ghost predicate CleanedFrom(kept: seq<Passenger>, p: Passenger, c: CleanPassenger)
  {
    // carried over unchanged
    c.passengerId == p.passengerId && c.survived == p.survived && c.pclass == p.pclass
    && c.name == p.name && c.sex == p.sex && c.sibSp == p.sibSp && c.parch == p.parch
    && c.ticket == p.ticket && p.fare == Some(c.fare) && c.fare > 0.0
    // a known age is kept; a missing one becomes the group median, and stays
    // missing only when nobody in the group has a known age
    && (p.age.Some? ==> c.age == p.age)
    && (p.age.None? ==> c.age == Stats.Median(GroupAges(kept, p.pclass, p.sex)))
    && (c.age.None? <==> p.age.None? && GroupAges(kept, p.pclass, p.sex) == [])
    // a known port is kept; a missing one becomes the class mode
    && (p.embarked.Some? ==> c.embarked == p.embarked.value)
    && (p.embarked.None? ==> Stats.IsModeOf(GroupPorts(kept, p.pclass), c.embarked))
    // derived columns
    && c.cabinDeck == (if p.cabin.Some? && p.cabin.value != "" then [p.cabin.value[0]] else UnknownDeck)
    && c.familySize == p.sibSp + p.parch + 1
    && (p.sibSp >= 0 && p.parch >= 0 ==> c.familySize >= 1)
    && c.cabinMissing == (if c.cabinDeck == UnknownDeck then 1 else 0)
    && (c.cabinMissing == 1 <==> p.cabin.None? || p.cabin.value == "")
  }

  /** Filling ages changes no class and no port, so the port fill fails on
      the age-filled table exactly when some class of the fare-filtered table
      has no known port. */
  lemma PortFillFailsIff(kept: seq<Passenger>)
    ensures FillEmbarked(FillAges(kept)).Failure? <==>
      exists i :: 0 <= i < |kept| && PortsAllMissing(kept, kept[i].pclass)
  {
    var aged := FillAges(kept);
    forall c: int ensures GroupPorts(aged, c) == GroupPorts(kept, c) {
      GroupPortsAgree(aged, kept, c);
    }
    if exists i :: 0 <= i < |kept| && PortsAllMissing(kept, kept[i].pclass) {
      var i :| 0 <= i < |kept| && PortsAllMissing(kept, kept[i].pclass);
      assert aged[i].pclass == kept[i].pclass;
      assert GroupPorts(aged, aged[i].pclass) == [];
    }
    if FillEmbarked(aged).Failure? {
      var i :| 0 <= i < |aged| && PortsAllMissing(aged, aged[i].pclass);
      assert kept[i].pclass == aged[i].pclass;
      assert GroupPorts(kept, kept[i].pclass) == [];
    }
  }

  /** A row that went through both fills and the derived columns meets
      `CleanedFrom`. */
  lemma FilledRowIsClean(kept: seq<Passenger>, filled: seq<Passenger>, k: nat, c: CleanPassenger)
    requires forall i :: 0 <= i < |kept| ==> HasPositiveFare(kept[i])
    requires FillEmbarked(FillAges(kept)) == Success(filled)
    requires k < |kept|
    requires var deck := OrUnknown(CabinInitial(filled[k].cabin));
      filled[k].fare.Some? && filled[k].embarked.Some?
      && c == WithoutCabin(filled[k], deck, FamilySize(filled[k].sibSp, filled[k].parch), CabinMissingFlag(deck))
    ensures CleanedFrom(kept, kept[k], c)
  {
    var aged := FillAges(kept);
    GroupPortsAgree(aged, kept, kept[k].pclass);
    CabinMissingIffNoCabin(kept[k].cabin);
  }

  /** `transform(df)`: the rules applied in order to a table that is rebound
      after each step. It fails only where `mode()[0]` raises; otherwise the
      k-th cleaned row comes from the k-th row with a positive fare. */
  method Transform(raw: seq<Passenger>) returns (res: Result<seq<CleanPassenger>, TransformError>)
    ensures var kept := KeepPositiveFare(raw);
      res.Failure? <==> exists i :: 0 <= i < |kept| && PortsAllMissing(kept, kept[i].pclass)
    ensures res.Success? ==> |res.value| == |KeepPositiveFare(raw)| == Stats.CountIf(raw, HasPositiveFare)
    ensures res.Success? ==> forall k :: 0 <= k < |res.value| ==>
      CleanedFrom(KeepPositiveFare(raw), KeepPositiveFare(raw)[k], res.value[k])
  {
    var df := KeepPositiveFare(raw);
    ghost var kept := df;
    df := FillAges(df);
    var filled := FillEmbarked(df);
    PortFillFailsIff(kept);
    if filled.Failure? {
      return Failure(filled.error);
    }
    df := filled.value;
    var out := DeriveColumns(df);
    forall k | 0 <= k < |out| ensures CleanedFrom(kept, kept[k], out[k]) {
      FilledRowIsClean(kept, df, k, out[k]);
    }
    res := Success(out);
  }
}
