/**
 * Cards, templates and the response classifier of the card-sorting test:
 * whether a choice is correct under the active rule, along which attribute
 * it matches, and whether the stimulus is ambiguous against the template set.
 */
module Cards {

  datatype Shape = Triangle | Star | Cross | Circle
  datatype Color = Red | Green | Blue | Yellow

  /** A stimulus or template card; the deck only ever holds numbers 1 to 4. */
  datatype Card = Card(shape: Shape, color: Color, number: int)

  /** The response tags 'C' (color), 'F' (form), 'N' (number) and 'O' (other). */
  datatype Dim = C | F | N | O

  /** A matching rule is one of the three attribute dimensions, never 'O'. */
  type Rule = d: Dim | d != O witness C

  /** The four fixed reference cards, in the order of their ids 1 to 4. */
  const Templates: seq<Card> := [
    Card(Triangle, Red, 1),
    Card(Star, Green, 2),
    Card(Cross, Yellow, 3),
    Card(Circle, Blue, 4)
  ]

  /** A card the deck can hold: one of the 64 combinations. */
  predicate InUniverse(c: Card) {
    1 <= c.number <= 4
  }

  /** The response is correct when stimulus and template agree on the rule's attribute. */
  predicate CheckCorrectness(stimulus: Card, template: Card, rule: Rule)
    ensures CheckCorrectness(stimulus, template, rule) ==> Matches(stimulus, template) >= 1
    ensures Matches(stimulus, template) == 3 ==> CheckCorrectness(stimulus, template, rule)
  {
    if rule == C then stimulus.color == template.color
    else if rule == F then stimulus.shape == template.shape
    else stimulus.number == template.number
  }

  /** Position of a dimension in the priority order C, F, N, O. */
  function Rank(d: Dim): nat {
    match d
    case C => 0
    case F => 1
    case N => 2
    case O => 3
  }

  /**
   * The first attribute, in the priority order color, form, number, on which
   * stimulus and template agree; O when they agree on none.  Equivalently: the
   * highest-priority rule under which this choice would have been correct.
   */
  function ResponseDimension(stimulus: Card, template: Card): (r: Dim)
    ensures r != O ==> CheckCorrectness(stimulus, template, r)
    ensures forall d: Rule :: Rank(d) < Rank(r) ==> !CheckCorrectness(stimulus, template, d)
  {
    if stimulus.color == template.color then C
    else if stimulus.shape == template.shape then F
    else if stimulus.number == template.number then N
    else O
  }

  /** Attribute agreements between a stimulus and one template (0 to 3). */
  function Matches(stimulus: Card, template: Card): nat {
    (if stimulus.color == template.color then 1 else 0) +
    (if stimulus.shape == template.shape then 1 else 0) +
    (if stimulus.number == template.number then 1 else 0)
  }

  /**
   * Correctness and the response dimension agree: the response dimension is
   * the rule exactly when the choice is correct and no higher-priority
   * attribute matches, and a correct choice never has a lower-priority
   * dimension than the rule.
   */
  lemma CorrectnessByDimension(stimulus: Card, template: Card, rule: Rule)
    ensures ResponseDimension(stimulus, template) == rule <==>
      CheckCorrectness(stimulus, template, rule) &&
      forall d: Rule :: Rank(d) < Rank(rule) ==> !CheckCorrectness(stimulus, template, d)
    ensures CheckCorrectness(stimulus, template, rule) ==> Rank(ResponseDimension(stimulus, template)) <= Rank(rule)
  {
  }

  /** Attribute agreements between a stimulus and every card of `ts`. */
  function MatchesAgainst(stimulus: Card, ts: seq<Card>): nat {
    if ts == [] then 0
    else MatchesAgainst(stimulus, ts[..|ts| - 1]) + Matches(stimulus, ts[|ts| - 1])
  }

  /**
   * Counts attribute agreements with all four templates, one template at a
   * time, and reports the stimulus ambiguous when there is more than one.
   */
  method CheckAmbiguity(stimulus: Card) returns (ambiguous: bool)
    ensures ambiguous <==> MatchesAgainst(stimulus, Templates) > 1
  {
    var matches := 0;
    var i := 0;
    while i < |Templates|
      invariant 0 <= i <= |Templates|
      invariant matches == MatchesAgainst(stimulus, Templates[..i])
    {
      var template := Templates[i];
      assert Templates[..i + 1][..i] == Templates[..i];
      if stimulus.color == template.color { matches := matches + 1; }
      if stimulus.shape == template.shape { matches := matches + 1; }
      if stimulus.number == template.number { matches := matches + 1; }
      i := i + 1;
    }
    assert Templates[..i] == Templates;
    ambiguous := matches > 1;
  }

  /** The templates, matched one by one: the sum of their individual agreements. */
  lemma TemplateMatches(s: Card)
    ensures MatchesAgainst(s, Templates) ==
      Matches(s, Templates[0]) + Matches(s, Templates[1]) + Matches(s, Templates[2]) + Matches(s, Templates[3])
  {
    var t := Templates;
    assert t[..1][..0] == [];
    assert MatchesAgainst(s, t[..1]) == Matches(s, t[0]);
    assert t[..2][..1] == t[..1];
    assert MatchesAgainst(s, t[..2]) == MatchesAgainst(s, t[..1]) + Matches(s, t[1]);
    assert t[..3][..2] == t[..2];
    assert MatchesAgainst(s, t[..3]) == MatchesAgainst(s, t[..2]) + Matches(s, t[2]);
    assert t[..3] == t[..|t| - 1];
  }

  /**
   * The templates name every color, every shape and every number once, so any
   * card of the deck agrees with them on exactly three attributes in total and
   * is always reported ambiguous.
   */
  lemma AlwaysAmbiguous(s: Card)
    requires InUniverse(s)
    ensures MatchesAgainst(s, Templates) == 3
    ensures MatchesAgainst(s, Templates) > 1
  {
    TemplateMatches(s);
  }

  /** For every rule and every card of the deck, exactly one template is the correct choice. */
  lemma OneTemplateCorrect(s: Card, rule: Rule)
    requires InUniverse(s)
    ensures exists i :: 0 <= i < |Templates| && CheckCorrectness(s, Templates[i], rule)
    ensures forall i, j :: 0 <= i < j < |Templates| ==>
      !(CheckCorrectness(s, Templates[i], rule) && CheckCorrectness(s, Templates[j], rule))
  {
    var i :=
      if rule == C then (match s.color case Red => 0 case Green => 1 case Yellow => 2 case Blue => 3)
      else if rule == F then (match s.shape case Triangle => 0 case Star => 1 case Cross => 2 case Circle => 3)
      else s.number - 1;
    assert CheckCorrectness(s, Templates[i], rule);
  }

  /**
   * A correct response need not match along the rule: a card agreeing with the
   * chosen template on color and form is correct under the form rule, but its
   * response dimension is C, because color has priority.
   */
  lemma CorrectButOtherDimension()
    ensures CheckCorrectness(Card(Triangle, Red, 2), Templates[0], F)
    ensures ResponseDimension(Card(Triangle, Red, 2), Templates[0]) == C
  {
  }
}
