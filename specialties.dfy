/**
 * The six specialty tests of gerador_relatorios/reports.py. Each is an
 * `any(...)` over the upper-cased specialty strings of one patient, asking
 * whether one of its trigger substrings occurs; the six are evaluated
 * independently, in a fixed order.
 */
module Specialties {
  import opened Text
  import opened Seqs

  datatype Specialty =
    | Aba
    | Psicoterapia
    | TerapiaOcupacional
    | Fonoaudiologia
    | Psicomotricidade
    | Psicopedagogia

  /** The order in which the reports test and emit the specialties. */
  const Order: seq<Specialty> :=
    [Aba, Psicoterapia, TerapiaOcupacional, Fonoaudiologia, Psicomotricidade, Psicopedagogia]

  /** The trigger substrings each test looks for, as written in the source. */
  function Triggers(sp: Specialty): seq<string> {
    match sp
    case Aba => ["ABA", "TERAPIA ABA"]
    case Psicoterapia => ["PSICOTERAPIA"]
    case TerapiaOcupacional => ["TERAPIA OCUPACIONAL", "OCUPACIONAL"]
    case Fonoaudiologia => ["FONOAUDIOLOGIA", "FONO"]
    case Psicomotricidade => ["PSICOMOTRICIDADE", "PSICOMOTOR"]
    case Psicopedagogia => ["PSICOPEDAGOGIA", "PEDAGOG"]
  }

  /** The section title used for the specialty in both reports. */
  function Title(sp: Specialty): string {
    match sp
    case Aba => "Terapia ABA"
    case Psicoterapia => "Psicoterapia"
    case TerapiaOcupacional => "Terapia Ocupacional"
    case Fonoaudiologia => "Fonoaudiologia"
    case Psicomotricidade => "Psicomotricidade"
    case Psicopedagogia => "Psicopedagogia"
  }

  /** Distinct specialties get distinct section titles. */
  lemma TitleInjective(a: Specialty, b: Specialty)
    ensures Title(a) == Title(b) ==> a == b
  {
  }

  /** The condition inside one `any(...)`, for one upper-cased specialty string. */
  predicate Matches(sp: Specialty, u: string) {
    match sp
    case Aba => Contains(u, "ABA") || Contains(u, "TERAPIA ABA")
    case Psicoterapia => Contains(u, "PSICOTERAPIA")
    case TerapiaOcupacional => Contains(u, "TERAPIA OCUPACIONAL") || Contains(u, "OCUPACIONAL")
    case Fonoaudiologia => Contains(u, "FONOAUDIOLOGIA") || Contains(u, "FONO")
    case Psicomotricidade => Contains(u, "PSICOMOTRICIDADE") || Contains(u, "PSICOMOTOR")
    case Psicopedagogia => Contains(u, "PSICOPEDAGOGIA") || Contains(u, "PEDAGOG")
  }

  /** `[esp.upper() for esp in especialidades]`. */
  function UpperAll(esps: seq<string>): (us: seq<string>)
    ensures |us| == |esps|
    ensures forall i :: 0 <= i < |esps| ==> us[i] == Upper(esps[i])
  {
    if esps == [] then [] else [Upper(esps[0])] + UpperAll(esps[1..])
  }

  /** `any(<test> for esp in us)`. */
  predicate AnyMatches(sp: Specialty, us: seq<string>) {
    if us == [] then false else Matches(sp, us[0]) || AnyMatches(sp, us[1..])
  }

  /** The test for `sp` on a patient's raw specialty list, as the reports run it. */
  predicate Present(sp: Specialty, esps: seq<string>) {
    AnyMatches(sp, UpperAll(esps))
  }

  /** The specialties of `kinds` whose test holds, in the order of `kinds`. */
  function Enabled(kinds: seq<Specialty>, esps: seq<string>): (e: seq<Specialty>)
    ensures forall sp :: sp in e <==> sp in kinds && Present(sp, esps)
    ensures |e| <= |kinds|
  {
    if kinds == [] then []
    else (if Present(kinds[0], esps) then [kinds[0]] else []) + Enabled(kinds[1..], esps)
  }

  /**
   * The enabled specialties keep the order in which the tests run, and
   * none is listed twice when no test is.
   */
  lemma {:induction false} EnabledInOrder(kinds: seq<Specialty>, esps: seq<string>)
    ensures SubsequenceOf(Enabled(kinds, esps), kinds)
    ensures NoDuplicates(kinds) ==> NoDuplicates(Enabled(kinds, esps))
    decreases |kinds|
  {
    if kinds != [] {
      EnabledInOrder(kinds[1..], esps);
      var rest := Enabled(kinds[1..], esps);
      assert NoDuplicates(kinds) ==> NoDuplicates(kinds[1..]) && kinds[0] !in kinds[1..];
      if Present(kinds[0], esps) {
        assert Enabled(kinds, esps) == [kinds[0]] + rest;
        assert ([kinds[0]] + rest)[1..] == rest;
      } else {
        assert Enabled(kinds, esps) == rest;
        assert rest != [] ==> rest[0] in rest && rest[0] != kinds[0];
      }
    }
  }

  /** The six tests are six different specialties. */
  lemma OrderHasNoDuplicates()
    ensures NoDuplicates(Order)
  {
  }

  lemma MatchesIffSomeTrigger(sp: Specialty, u: string)
    ensures Matches(sp, u) <==> exists t :: t in Triggers(sp) && Contains(u, t)
  {
    var ts := Triggers(sp);
    assert ts[0] in ts;
    if |ts| > 1 { assert ts[1] in ts; }
  }

  lemma {:induction false} AnyMatchesIff(sp: Specialty, us: seq<string>)
    ensures AnyMatches(sp, us) <==> exists i :: 0 <= i < |us| && Matches(sp, us[i])
    decreases |us|
  {
    if us != [] {
      AnyMatchesIff(sp, us[1..]);
      if AnyMatches(sp, us[1..]) {
        var i :| 0 <= i < |us[1..]| && Matches(sp, us[1..][i]);
        assert Matches(sp, us[i + 1]);
      }
      if exists i :: 0 <= i < |us| && Matches(sp, us[i]) {
        var i :| 0 <= i < |us| && Matches(sp, us[i]);
        if i > 0 { assert Matches(sp, us[1..][i - 1]); }
      }
    }
  }

  /**
   * A specialty's section is enabled exactly when some specialty string,
   * upper-cased, contains one of its triggers.
   */
  lemma PresentIff(sp: Specialty, esps: seq<string>)
    ensures Present(sp, esps) <==>
      exists e :: e in esps && exists t :: t in Triggers(sp) && Contains(Upper(e), t)
  {
    var us := UpperAll(esps);
    AnyMatchesIff(sp, us);
    if Present(sp, esps) {
      var i :| 0 <= i < |us| && Matches(sp, us[i]);
      MatchesIffSomeTrigger(sp, us[i]);
      assert esps[i] in esps;
    }
    if exists e :: e in esps && exists t :: t in Triggers(sp) && Contains(Upper(e), t) {
      var e, t :| e in esps && t in Triggers(sp) && Contains(Upper(e), t);
      var i :| 0 <= i < |esps| && esps[i] == e;
      MatchesIffSomeTrigger(sp, us[i]);
    }
  }

  /** Reordering, repeating or dropping repeated strings changes no test. */
  lemma PresentDependsOnlyOnElements(sp: Specialty, e1: seq<string>, e2: seq<string>)
    requires forall x :: x in e1 <==> x in e2
    ensures Present(sp, e1) == Present(sp, e2)
  {
    PresentIff(sp, e1);
    PresentIff(sp, e2);
  }

  lemma {:induction false} EnabledDependsOnlyOnElements(kinds: seq<Specialty>, e1: seq<string>, e2: seq<string>)
    requires forall x :: x in e1 <==> x in e2
    ensures Enabled(kinds, e1) == Enabled(kinds, e2)
    decreases |kinds|
  {
    if kinds != [] {
      PresentDependsOnlyOnElements(kinds[0], e1, e2);
      EnabledDependsOnlyOnElements(kinds[1..], e1, e2);
    }
  }

  /**
   * The longer trigger adds nothing for ABA, Terapia Ocupacional,
   * Fonoaudiologia and Psicopedagogia: it contains the shorter one.
   */
  lemma LongerTriggersRedundant(u: string)
    ensures Matches(Aba, u) <==> Contains(u, "ABA")
    ensures Matches(TerapiaOcupacional, u) <==> Contains(u, "OCUPACIONAL")
    ensures Matches(Fonoaudiologia, u) <==> Contains(u, "FONO")
    ensures Matches(Psicopedagogia, u) <==> Contains(u, "PEDAGOG")
  {
    assert OccursAt("TERAPIA ABA", "ABA", 8);
    assert OccursAt("TERAPIA OCUPACIONAL", "OCUPACIONAL", 8);
    assert OccursAt("FONOAUDIOLOGIA", "FONO", 0);
    assert OccursAt("PSICOPEDAGOGIA", "PEDAGOG", 5);
    if Contains(u, "TERAPIA ABA") { ContainsTransitive(u, "TERAPIA ABA", "ABA"); }
    if Contains(u, "TERAPIA OCUPACIONAL") { ContainsTransitive(u, "TERAPIA OCUPACIONAL", "OCUPACIONAL"); }
    if Contains(u, "FONOAUDIOLOGIA") { ContainsTransitive(u, "FONOAUDIOLOGIA", "FONO"); }
    if Contains(u, "PSICOPEDAGOGIA") { ContainsTransitive(u, "PSICOPEDAGOGIA", "PEDAGOG"); }
  }

  /**
   * The two Psicomotricidade triggers are independent: neither contains the
   * other, and each alone enables the section.
   */
  lemma PsicomotorTriggersIndependent()
    ensures !Contains("PSICOMOTRICIDADE", "PSICOMOTOR")
    ensures !Contains("PSICOMOTOR", "PSICOMOTRICIDADE")
    ensures Matches(Psicomotricidade, "PSICOMOTRICIDADE")
    ensures Matches(Psicomotricidade, "PSICOMOTOR")
  {
    var long, short := "PSICOMOTRICIDADE", "PSICOMOTOR";
    forall i: nat | i <= |long| ensures !OccursAt(long, short, i) {
      if i + |short| <= |long| {
        if i == 0 { assert long[i + 9] != short[9]; }
        else if i == 1 { assert long[i] != short[0]; }
        else if i == 2 { assert long[i] != short[0]; }
        else if i == 3 { assert long[i] != short[0]; }
        else if i == 4 { assert long[i] != short[0]; }
        else if i == 5 { assert long[i] != short[0]; }
        else { assert long[i] != short[0]; }
      }
    }
    assert OccursAt(long, long, 0);
    assert OccursAt(short, short, 0);
  }

  /**
   * The tests ignore ASCII case and the short trigger suffices: any
   * specialty string starting with "fono", in any mix of cases (say
   * "fonoaudióloga"), enables Fonoaudiologia.
   */
  lemma FonoPrefixEnablesFonoaudiologia(e: string, esps: seq<string>)
    requires e in esps && |e| >= 4
    requires e[0] in "fF" && e[1] in "oO" && e[2] in "nN" && e[3] in "oO"
    ensures Present(Fonoaudiologia, esps)
  {
    var u := Upper(e);
    assert u[..4] == "FONO";
    assert OccursAt(u, "FONO", 0);
    assert Matches(Fonoaudiologia, u);
    PresentIff(Fonoaudiologia, esps);
    assert "FONO" in Triggers(Fonoaudiologia);
  }

  /**
   * A specialty string that, upper-cased, holds no 'A', 'P' or 'F' (such
   * as "Nutrição") can match no trigger: a patient with only such strings
   * gets no specialty section.
   */
  lemma UnrecognisedEnablesNothing(esps: seq<string>)
    requires forall x :: x in esps ==> 'A' !in Upper(x) && 'P' !in Upper(x) && 'F' !in Upper(x)
    ensures Enabled(Order, esps) == []
  {
    var us := UpperAll(esps);
    forall sp | sp in Order ensures !Present(sp, esps) {
      AnyMatchesIff(sp, us);
      forall i | 0 <= i < |us| ensures !Matches(sp, us[i]) {
        assert esps[i] in esps;
        NoTriggerLetterNoMatch(sp, us[i]);
      }
    }
    if Enabled(Order, esps) != [] {
      assert Enabled(Order, esps)[0] in Enabled(Order, esps);
    }
  }

  /** A patient none of whose strings passes any test gets no specialty section. */
  lemma NoMatchEnablesNothing(esps: seq<string>)
    requires forall x, sp :: x in esps ==> !Matches(sp, Upper(x))
    ensures Enabled(Order, esps) == []
  {
    var us := UpperAll(esps);
    forall sp | sp in Order ensures !Present(sp, esps) {
      AnyMatchesIff(sp, us);
      forall i | 0 <= i < |us| ensures !Matches(sp, us[i]) {
        assert esps[i] in esps;
      }
    }
    NoneEnabled(Order, esps);
  }

  lemma {:induction false} NoneEnabled(kinds: seq<Specialty>, esps: seq<string>)
    requires forall sp :: sp in kinds ==> !Present(sp, esps)
    ensures Enabled(kinds, esps) == []
    decreases |kinds|
  {
    if kinds != [] {
      assert kinds[0] in kinds;
      NoneEnabled(kinds[1..], esps);
    }
  }

  /**
   * Nutrição and Fisioterapia, which the help text lists as supported for
   * PNE, are looked at by no test: a patient whose specialty strings are
   * only these two gets no specialty section in either report.
   */
  lemma NutritionAndPhysiotherapyEnableNothing(esps: seq<string>)
    requires forall x :: x in esps ==> x == "Nutrição" || x == "Fisioterapia"
    ensures Enabled(Order, esps) == []
  {
    forall x, sp | x in esps ensures !Matches(sp, Upper(x)) {
      if x == "Nutrição" { NutricaoMatchesNothing(sp); } else { FisioterapiaMatchesNothing(sp); }
    }
    NoMatchEnablesNothing(esps);
  }

  lemma NutricaoMatchesNothing(sp: Specialty)
    ensures !Matches(sp, Upper("Nutrição"))
  {
    var s := "Nutrição";
    NutricaoLetters();
    UpperAvoids(s, 'A', 'a');
    UpperAvoids(s, 'P', 'p');
    UpperAvoids(s, 'F', 'f');
    NoTriggerLetterNoMatch(sp, Upper(s));
  }

  lemma NutricaoLetters()
    ensures 'A' !in "Nutrição" && 'a' !in "Nutrição"
    ensures 'P' !in "Nutrição" && 'p' !in "Nutrição"
    ensures 'F' !in "Nutrição" && 'f' !in "Nutrição"
  {
  }

  lemma FisioterapiaMatchesNothing(sp: Specialty)
    ensures !Matches(sp, Upper("Fisioterapia"))
  {
    var s := "Fisioterapia";
    FisioterapiaLetters();
    UpperAvoids(s, 'B', 'b');
    UpperAvoids(s, 'C', 'c');
    UpperAvoids(s, 'N', 'n');
    UpperAvoids(s, 'D', 'd');
    NoKeyLetterNoMatch(sp, Upper(s));
  }

  lemma FisioterapiaLetters()
    ensures 'B' !in "Fisioterapia" && 'b' !in "Fisioterapia"
    ensures 'C' !in "Fisioterapia" && 'c' !in "Fisioterapia"
    ensures 'N' !in "Fisioterapia" && 'n' !in "Fisioterapia"
    ensures 'D' !in "Fisioterapia" && 'd' !in "Fisioterapia"
  {
  }

  /** Every trigger holds a 'B', 'C', 'N' or 'D'. */
  lemma NoKeyLetterNoMatch(sp: Specialty, u: string)
    requires 'B' !in u && 'C' !in u && 'N' !in u && 'D' !in u
    ensures !Matches(sp, u)
  {
    match sp
    case Aba =>
      MissingCharNotContained(u, "ABA", 'B');
      MissingCharNotContained(u, "TERAPIA ABA", 'B');
    case Psicoterapia =>
      MissingCharNotContained(u, "PSICOTERAPIA", 'C');
    case TerapiaOcupacional =>
      MissingCharNotContained(u, "TERAPIA OCUPACIONAL", 'C');
      MissingCharNotContained(u, "OCUPACIONAL", 'C');
    case Fonoaudiologia =>
      MissingCharNotContained(u, "FONOAUDIOLOGIA", 'N');
      MissingCharNotContained(u, "FONO", 'N');
    case Psicomotricidade =>
      MissingCharNotContained(u, "PSICOMOTRICIDADE", 'C');
      MissingCharNotContained(u, "PSICOMOTOR", 'C');
    case Psicopedagogia =>
      MissingCharNotContained(u, "PSICOPEDAGOGIA", 'C');
      MissingCharNotContained(u, "PEDAGOG", 'D');
  }

  lemma NoTriggerLetterNoMatch(sp: Specialty, u: string)
    requires 'A' !in u && 'P' !in u && 'F' !in u
    ensures !Matches(sp, u)
  {
    match sp
    case Aba =>
      MissingCharNotContained(u, "ABA", 'A');
      MissingCharNotContained(u, "TERAPIA ABA", 'A');
    case Psicoterapia =>
      MissingCharNotContained(u, "PSICOTERAPIA", 'P');
    case TerapiaOcupacional =>
      MissingCharNotContained(u, "TERAPIA OCUPACIONAL", 'P');
      MissingCharNotContained(u, "OCUPACIONAL", 'P');
    case Fonoaudiologia =>
      MissingCharNotContained(u, "FONOAUDIOLOGIA", 'F');
      MissingCharNotContained(u, "FONO", 'F');
    case Psicomotricidade =>
      MissingCharNotContained(u, "PSICOMOTRICIDADE", 'P');
      MissingCharNotContained(u, "PSICOMOTOR", 'P');
    case Psicopedagogia =>
      MissingCharNotContained(u, "PSICOPEDAGOGIA", 'P');
      MissingCharNotContained(u, "PEDAGOG", 'P');
  }

  /**
   * The six tests are not exclusive: one string whose upper-cased form
   * holds both "PSICOTERAPIA" and "ABA" (say "Psicoterapia ABA") enables
   * both sections.
   */
  lemma OneStringEnablesSeveral(e: string, esps: seq<string>)
    requires e in esps
    requires Contains(Upper(e), "PSICOTERAPIA") && Contains(Upper(e), "ABA")
    ensures Present(Psicoterapia, esps) && Present(Aba, esps)
    ensures Aba in Enabled(Order, esps) && Psicoterapia in Enabled(Order, esps)
  {
    PresentIff(Psicoterapia, esps);
    PresentIff(Aba, esps);
    assert "PSICOTERAPIA" in Triggers(Psicoterapia);
    assert "ABA" in Triggers(Aba);
  }
}
