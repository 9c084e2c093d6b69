/** The security goals a firmware, a certificate or a drone may carry: three identifiers, kept in a
    fixed order without repetition. */
module SecurityGoals {
  import opened Wrappers
  import opened Strings

  type Goals = seq<string>

  const GOAL_1 := "ЦБ-1"
  const GOAL_2 := "ЦБ-2"
  const GOAL_3 := "ЦБ-3"

  predicate IsGoal(g: string) {
    g == GOAL_1 || g == GOAL_2 || g == GOAL_3
  }

  /** The goals of a list that are not blank, trimmed. */
  function Items(goals: Goals): Goals {
    if goals == [] then []
    else
      var last := Strip(goals[|goals| - 1]);
      Items(goals[..|goals| - 1]) + if last == "" then [] else [last]
  }

  /** The goals for which this holds, in their fixed order. */
  function InOrder(first: bool, second: bool, third: bool): Goals {
    (if first then [GOAL_1] else []) + (if second then [GOAL_2] else []) + (if third then [GOAL_3] else [])
  }

  function Canonical(goals: Goals): Goals {
    InOrder(GOAL_1 in goals, GOAL_2 in goals, GOAL_3 in goals)
  }

  /** The normal form of a list, or nothing when it names an unknown goal or, unless that is
      allowed, no goal at all. */
  function Normalize(goals: Goals, allowEmpty: bool): Option<Goals> {
    var items := Items(goals);
    if items == [] then if allowEmpty then Some([]) else None
    else if exists g <- items :: !IsGoal(g) then None
    else Some(Canonical(items))
  }

  /** The drone's goals that the new effective goals still allow, sorted. */
  function Narrow(current: Goals, effective: Goals): Goals {
    InOrder(GOAL_1 in current && GOAL_1 in effective, GOAL_2 in current && GOAL_2 in effective,
            GOAL_3 in current && GOAL_3 in effective)
  }

  /** Without a regulator the goals chosen for a drone must be among the certificate's. */
  predicate GoalsAllowed(chosen: Goals, effective: Goals, regulatorPresent: bool) {
    regulatorPresent || forall g <- chosen :: g in effective
  }

  // ----- laws

  lemma GoalsDiffer()
    ensures GOAL_1 != GOAL_2 && GOAL_1 != GOAL_3 && GOAL_2 != GOAL_3
    ensures forall g :: IsGoal(g) ==> Strip(g) == g && g != ""
  {
    assert GOAL_1[3] == '1' && GOAL_2[3] == '2' && GOAL_3[3] == '3';
  }

  lemma {:induction false} ItemsOfGoals(goals: Goals)
    requires forall g <- goals :: IsGoal(g)
    ensures Items(goals) == goals
  {
    hide IsGoal, Strip;
    if goals != [] {
      var n := |goals| - 1;
      GoalsDiffer();
      ItemsOfGoals(goals[..n]);
      assert goals[n] in goals;
      assert goals == goals[..n] + [goals[n]];
    }
  }

  lemma {:induction false} ItemsMeans(goals: Goals)
    ensures forall x :: x in Items(goals) <==> x != "" && exists g <- goals :: Strip(g) == x
  {
    hide Strip;
    if goals != [] {
      var n := |goals| - 1;
      ItemsMeans(goals[..n]);
      assert goals == goals[..n] + [goals[n]];
      forall x | x != "" ensures x in Items(goals) <==> exists g <- goals :: Strip(g) == x {
        if g :| g in goals && Strip(g) == x {
          assert g in goals[..n] || g == goals[n];
        }
        if x in Items(goals[..n]) {
          var g :| g in goals[..n] && Strip(g) == x;
          assert g in goals;
        }
      }
    }
  }

  predicate BlankOrGoal(g: string) {
    Strip(g) in {"", "ЦБ-1", "ЦБ-2", "ЦБ-3"}
  }

  /** A list has a normal form exactly when every entry is blank or one of the three goals, and one is
      not blank unless that is allowed. */
  lemma NormalFormExists(goals: Goals, allowEmpty: bool)
    ensures Normalize(goals, allowEmpty).Some?
       <==> (forall g <- goals :: BlankOrGoal(g)) && (allowEmpty || exists g <- goals :: Strip(g) != "")
  {
    hide Strip, Canonical, Items;
    ItemsMeans(goals);
    var items := Items(goals);
    forall g | g in goals && Strip(g) != "" ensures Strip(g) in items {
    }
    if items != [] {
      assert items[0] in items;
      var h :| h in goals && Strip(h) == items[0];
      assert Strip(h) != "";
      if forall g <- goals :: BlankOrGoal(g) {
        forall x | x in items ensures IsGoal(x) {
          var g :| g in goals && Strip(g) == x;
          assert BlankOrGoal(g);
        }
      }
    }
    if forall x <- items :: IsGoal(x) {
      forall g | g in goals ensures BlankOrGoal(g) {
        assert Strip(g) == "" || Strip(g) in items;
      }
    }
  }

  /** It holds exactly the goals named, each once and in ascending order. */
  lemma NormalFormMeans(goals: Goals, allowEmpty: bool)
    requires Normalize(goals, allowEmpty).Some?
    ensures var norm := Normalize(goals, allowEmpty).value;
            && (forall g :: g in norm <==> g != "" && exists h <- goals :: Strip(h) == g)
            && (forall g <- norm :: g in {"ЦБ-1", "ЦБ-2", "ЦБ-3"})
            && (forall i, j :: 0 <= i < j < |norm| ==> norm[i][3] < norm[j][3])
  {
    NormalFormIsFixed(goals, allowEmpty);
    ItemsMeans(goals);
    var norm := Normalize(goals, allowEmpty).value;
    CanonicalAscends(norm);
    hide Normalize, Items, Strip, Canonical;
    forall g | g in norm ensures g in {"ЦБ-1", "ЦБ-2", "ЦБ-3"} {
      assert IsGoal(g);
    }
  }

  lemma CanonicalAscends(goals: Goals)
    ensures forall g <- Canonical(goals) :: |g| == 4
    ensures forall i, j :: 0 <= i < j < |Canonical(goals)| ==> Canonical(goals)[i][3] < Canonical(goals)[j][3]
  {
    assert GOAL_1[3] == '1' && GOAL_2[3] == '2' && GOAL_3[3] == '3';
  }

  lemma CanonicalGoals(goals: Goals)
    ensures forall g :: g in Canonical(goals) <==> IsGoal(g) && g in goals
    ensures Canonical(Canonical(goals)) == Canonical(goals)
  {
    hide Strip;
    GoalsDiffer();
  }

  /** A normal form holds only known goals, exactly those named, and is its own normal form. */
  lemma NormalFormIsFixed(goals: Goals, allowEmpty: bool)
    requires Normalize(goals, allowEmpty).Some?
    ensures var norm := Normalize(goals, allowEmpty).value;
            && (forall g <- norm :: IsGoal(g))
            && (forall g :: g in norm <==> g in Items(goals))
            && Canonical(norm) == norm
            && Normalize(norm, true) == Some(norm)
  {
    hide Items, Canonical, IsGoal;
    var norm, items := Normalize(goals, allowEmpty).value, Items(goals);
    if items == [] {
      ItemsOfGoals([]);
      NothingIsCanonical();
    } else {
      CanonicalGoals(items);
      ItemsOfGoals(norm);
    }
  }

  lemma NothingIsCanonical()
    ensures Canonical([]) == []
  {
  }

  /** Narrowing keeps exactly the known goals in both lists; it never adds one. */
  lemma NarrowIsIntersection(current: Goals, effective: Goals)
    ensures forall g :: g in Narrow(current, effective) <==> IsGoal(g) && g in current && g in effective
  {
  }

  /** A single known goal is its own normal form. */
  lemma GoalIsNormal(goals: Goals)
    requires |goals| == 1 && IsGoal(goals[0])
    ensures Normalize(goals, true) == Some(goals)
  {
    hide Items;
    ItemsOfGoals(goals);
    SingleIsCanonical(goals);
  }

  lemma SingleIsCanonical(goals: Goals)
    requires |goals| == 1 && IsGoal(goals[0])
    ensures Canonical(goals) == goals
  {
    GoalsDiffer();
  }
}
