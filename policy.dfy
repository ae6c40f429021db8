/**
 * The policy panel of a customer's portfolio: for each of the three
 * employee-benefit policies, whether the customer holds it.
 */
module Policy {
  import opened Strings
  import opened Normalize

  /** The policy columns, in the order the panel shows them. */
  const PolicyKeys: seq<string> := ["gratuity", "superannuation", "leave_encashment"]

  /** The label shown for the policy at the same position in `PolicyKeys`. */
  const PolicyLabels: seq<string> := ["Gratuity", "Superannuation", "Leave Encashment"]

  /** What one of the panel's three places shows: nothing, a success badge or an error badge. */
  datatype Badge = Blank | Held(name: string) | NotHeld(name: string)

  lemma UpperIsY(t: string)
    ensures Upper(t) == "Y" <==> t == "Y" || t == "y"
  {
    if Upper(t) == "Y" {
      assert |Upper(t)| == |t| == 1;
      assert Upper(t)[0] == UpperChar(t[0]) == 'Y';
      assert t == [t[0]];
    }
  }

  /**
   * The flag test: a present cell whose text, stripped and upper-cased, is
   * `Y`; that is, text that strips to `Y` or `y`.
   */
  predicate IsYes(c: Cell)
    ensures IsYes(c) <==> c.Text? && (Trim(c.text) == "Y" || Trim(c.text) == "y")
  {
    if c.Text? then UpperIsY(Trim(c.text)); Upper(Trim(c.text)) == "Y" else false
  }

  /** Whitespace around the flag does not change the answer. */
  lemma YesIgnoresPadding(pre: string, s: string, post: string)
    requires AllSpace(pre) && AllSpace(post)
    ensures IsYes(Text(pre + (s + post))) <==> IsYes(Text(s))
  {
    TrimIgnoresPadding(pre, s, post);
  }

  /** Any other text, a number and an empty cell all show as not held. */
  lemma OnlyYIsYes(c: Cell)
    requires !c.Text? || (Trim(c.text) != "Y" && Trim(c.text) != "y")
    ensures !IsYes(c)
  {
  }

  /**
   * The panel for a customer whose first row is `first`: the place of a
   * policy whose column the table lacks stays blank; otherwise it shows
   * the policy's label as held exactly when the flag test passes.
   */
  method DisplayPolicyStatus(columns: seq<string>, first: Row) returns (panel: seq<Badge>)
    requires forall c :: c in columns ==> c in first
    ensures |panel| == |PolicyKeys|
    ensures forall i :: 0 <= i < |panel| ==>
      && (panel[i].Blank? <==> PolicyKeys[i] !in columns)
      && (panel[i].Held? <==> PolicyKeys[i] in columns && IsYes(first[PolicyKeys[i]]))
      && (!panel[i].Blank? ==> panel[i].name == PolicyLabels[i])
  {
    panel := [];
    for i := 0 to |PolicyKeys|
      invariant |panel| == i
      invariant forall j :: 0 <= j < i ==>
        && (panel[j].Blank? <==> PolicyKeys[j] !in columns)
        && (panel[j].Held? <==> PolicyKeys[j] in columns && IsYes(first[PolicyKeys[j]]))
        && (!panel[j].Blank? ==> panel[j].name == PolicyLabels[j])
    {
      var key, name := PolicyKeys[i], PolicyLabels[i];
      var badge := Blank;
      if key in columns {
        var status := first[key];
        // A number prints with digits, so only a text cell can read as `Y`.
        if status.Text? && Upper(Trim(status.text)) == "Y" {
          badge := Held(name);
        } else {
          badge := NotHeld(name);
        }
      }
      panel := panel + [badge];
    }
  }
}
