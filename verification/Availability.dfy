/**
 * The availability normaliser: a free-text availability code is mapped to one
 * of three canonical labels by an ordered list of case-insensitive substring
 * rules, or passed through unchanged when no rule fires.
 */
module Availability {
  import opened Wrappers
  import opened JsValues
  import opened Text

  const NowLabel := "Available: Now"
  const SoonLabel := "Available Soon: Nursery"
  const AdoptedLabel := "Adopted"

  /**
   * One rule: it fires on a lower-cased text when, for at least one of its
   * alternatives, every word of that alternative occurs in the text.
   */
  datatype Rule = Rule(alternatives: seq<seq<string>>, outcome: string)

  /** The rules in the order they are tried. */
  const Rules: seq<Rule> := [
    Rule([["nursery"], ["soon"]], SoonLabel),
    Rule([["adopted"]], AdoptedLabel),
    Rule([["available", "now"]], NowLabel)
  ]

  predicate AllOccur(text: string, words: seq<string>)
  {
    |words| == 0 || (Includes(text, words[0]) && AllOccur(text, words[1..]))
  }

  predicate AnyAllOccur(text: string, alternatives: seq<seq<string>>)
  {
    |alternatives| > 0 && (AllOccur(text, alternatives[0]) || AnyAllOccur(text, alternatives[1..]))
  }

  predicate Fires(rule: Rule, text: string)
  {
    AnyAllOccur(text, rule.alternatives)
  }

  /** The label of the first rule of `rules` that fires on `text`, if any. */
  function FirstMatch(rules: seq<Rule>, text: string): (r: Option<string>)
    ensures r.None? <==> forall k :: 0 <= k < |rules| ==> !Fires(rules[k], text)
    ensures r.Some? ==>
      exists k :: 0 <= k < |rules| && Fires(rules[k], text) && r.value == rules[k].outcome
        && forall m :: 0 <= m < k ==> !Fires(rules[m], text)
  {
    if |rules| == 0 then None
    else if Fires(rules[0], text) then Some(rules[0].outcome)
    else
      var r := FirstMatch(rules[1..], text);
      assert forall k :: 1 <= k < |rules| ==> rules[1..][k - 1] == rules[k];
      r
  }

  predicate TruthyOpt(value: Option<Value>)
  {
    value.Some? && Truthy(value.value)
  }

  /**
   * `normalizeAvailability(value)`: a falsy value becomes "Available: Now";
   * otherwise the first rule that fires decides, and with none firing the
   * value's own string form is returned unchanged.
   */
  function Normalize(value: Option<Value>): (r: string)
    ensures r == NowLabel || r == SoonLabel || r == AdoptedLabel || (TruthyOpt(value) && r == Show(value.value))
    ensures r == "" ==> value.Some? && value.value.List?
  {
    if !TruthyOpt(value) then NowLabel
    else
      var v := Lower(Show(value.value));
      if Includes(v, "nursery") || Includes(v, "soon") then SoonLabel
      else if Includes(v, "adopted") then AdoptedLabel
      else if Includes(v, "available") && Includes(v, "now") then NowLabel
      else Show(value.value)
  }

  lemma AllOccurOne(text: string, w: string)
    ensures AllOccur(text, [w]) <==> Includes(text, w)
  {
    assert [w][1..] == [];
  }

  lemma AllOccurTwo(text: string, w1: string, w2: string)
    ensures AllOccur(text, [w1, w2]) <==> Includes(text, w1) && Includes(text, w2)
  {
    assert [w1, w2][1..] == [w2];
    AllOccurOne(text, w2);
  }

  lemma AnyOfOne(text: string, a: seq<string>)
    ensures AnyAllOccur(text, [a]) <==> AllOccur(text, a)
  {
    assert [a][1..] == [];
  }

  lemma AnyOfTwo(text: string, a: seq<string>, b: seq<string>)
    ensures AnyAllOccur(text, [a, b]) <==> AllOccur(text, a) || AllOccur(text, b)
  {
    assert [a, b][1..] == [b];
    AnyOfOne(text, b);
  }

  /** The three rules fire exactly on the substring tests the handler makes. */
  lemma RulesFire(v: string)
    ensures Fires(Rules[0], v) <==> Includes(v, "nursery") || Includes(v, "soon")
    ensures Fires(Rules[1], v) <==> Includes(v, "adopted")
    ensures Fires(Rules[2], v) <==> Includes(v, "available") && Includes(v, "now")
  {
    AnyOfTwo(v, ["nursery"], ["soon"]);
    AllOccurOne(v, "nursery");
    AllOccurOne(v, "soon");
    AnyOfOne(v, ["adopted"]);
    AllOccurOne(v, "adopted");
    AnyOfOne(v, ["available", "now"]);
    AllOccurTwo(v, "available", "now");
  }

  /** The normaliser is exactly the ordered rule list with pass-through fallback. */
  lemma NormalizeByRules(value: Option<Value>)
    ensures !TruthyOpt(value) ==> Normalize(value) == NowLabel
    ensures TruthyOpt(value) ==>
      Normalize(value) == FirstMatch(Rules, Lower(Show(value.value))).GetOr(Show(value.value))
  {
    if TruthyOpt(value) {
      RulesFire(Lower(Show(value.value)));
    }
  }

  /** Each canonical label normalises to itself. */
  lemma LabelsAreFixed()
    ensures Normalize(Some(Str(NowLabel))) == NowLabel
    ensures Normalize(Some(Str(SoonLabel))) == SoonLabel
    ensures Normalize(Some(Str(AdoptedLabel))) == AdoptedLabel
  {
    NowIsFixed();
    SoonIsFixed();
    AdoptedIsFixed();
  }

  lemma NowIsFixed()
    ensures Normalize(Some(Str(NowLabel))) == NowLabel
  {
    NowTextFacts(Lower(NowLabel));
  }

  lemma NowTextFacts(now: string)
    requires now == Lower(NowLabel)
    ensures !Includes(now, "nursery") && !Includes(now, "soon") && !Includes(now, "adopted")
    ensures Includes(now, "available") && Includes(now, "now")
  {
    LowerNow();
    NowLiteralFacts(now);
  }

  lemma LowerNow()
    ensures Lower(NowLabel) == "available: now"
  {
  }

  lemma NowLiteralFacts(now: string)
    requires now == "available: now"
    ensures !Includes(now, "nursery") && !Includes(now, "soon") && !Includes(now, "adopted")
    ensures Includes(now, "available") && Includes(now, "now")
  {
    NowLiteralExcludes(now);
    OccurrenceIncludes(now, "available", 0);
    OccurrenceIncludes(now, "now", 11);
  }

  lemma NowLiteralExcludes(now: string)
    requires now == "available: now"
    ensures !Includes(now, "nursery") && !Includes(now, "soon") && !Includes(now, "adopted")
  {
    MissingCharExcludes(now, "nursery", 'u');
    MissingCharExcludes(now, "soon", 's');
    MissingCharExcludes(now, "adopted", 'd');
  }

  lemma SoonIsFixed()
    ensures Normalize(Some(Str(SoonLabel))) == SoonLabel
  {
    var soon := Lower(SoonLabel);
    assert soon == "available soon: nursery";
    OccurrenceIncludes(soon, "soon", 10);
  }

  lemma AdoptedIsFixed()
    ensures Normalize(Some(Str(AdoptedLabel))) == AdoptedLabel
  {
    LowerAdoptedLabel();
    AdoptedLiteralFacts("adopted");
  }

  lemma LowerAdoptedLabel()
    ensures Lower(AdoptedLabel) == "adopted"
  {
  }

  lemma AdoptedLiteralFacts(adopted: string)
    requires adopted == "adopted"
    ensures !Includes(adopted, "nursery") && !Includes(adopted, "soon") && Includes(adopted, "adopted")
  {
    MissingCharExcludes(adopted, "nursery", 'n');
    MissingCharExcludes(adopted, "soon", 's');
    OccurrenceIncludes(adopted, "adopted", 0);
  }

  /** Normalising a normalised (non-empty) availability gives it back unchanged. */
  lemma NormalizeIdempotent(value: Option<Value>)
    ensures Normalize(value) != "" ==> Normalize(Some(Str(Normalize(value)))) == Normalize(value)
  {
    var r := Normalize(value);
    if r == NowLabel || r == SoonLabel || r == AdoptedLabel {
      LabelsAreFixed();
    }
  }

  lemma OccurrenceIncludes(s: string, t: string, i: int)
    requires OccursAt(s, t, i)
    ensures Includes(s, t)
  {
    IncludesIff(s, t);
  }

  /** A word with a character the text lacks does not occur in it. */
  lemma MissingCharExcludes(s: string, t: string, c: char)
    requires c in t && c !in s
    ensures !Includes(s, t)
  {
    IncludesIff(s, t);
  }
}
