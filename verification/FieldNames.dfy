/** Which names of fields and parameters are taken for the same: those with the same letters and digits, whatever the case. */
module FieldNames {
  import opened Wrappers
  import opened ToolSchema
  import opened Gates
  import opened Plans
  import opened Resolver
  import opened Execution

  const CAPITALS: string := "ABCDEFGHIJKLMNOPQRSTUVWXYZ"
  const SMALL: string := "abcdefghijklmnopqrstuvwxyz"
  const DIGITS: string := "0123456789"

  /** The same, or one letter in its two cases. */
  predicate Alike(c: char, d: char) {
    c == d || exists i :: 0 <= i < 26 && ((c == CAPITALS[i] && d == SMALL[i]) || (c == SMALL[i] && d == CAPITALS[i]))
  }

  /** A letter or a digit. */
  predicate Counts(c: char) {
    c in CAPITALS || c in SMALL || c in DIGITS
  }

  /** The letters and digits of a name. */
  function Kept(name: string): (s: string)
    ensures forall c <- s :: Counts(c)
  {
    if name == "" then ""
    else
      var rest, c := Kept(name[..|name| - 1]), name[|name| - 1];
      if Counts(c) then rest + [c] else rest
  }

  predicate AlikeAll(a: string, b: string) {
    |a| == |b| && forall i :: 0 <= i < |a| ==> Alike(a[i], b[i])
  }

  /** `cart_id`, `cartId` and `CartID` are the same name. */
  predicate SameName(a: string, b: string) {
    AlikeAll(Kept(a), Kept(b))
  }

  lemma Letters(i: nat)
    requires i < 26
    ensures CAPITALS[i] == ('A' as int + i) as char && SMALL[i] == ('a' as int + i) as char
  {
  }

  lemma Numerals(i: nat)
    requires i < 10
    ensures DIGITS[i] == ('0' as int + i) as char
  {
  }

  /** A text of consecutive characters holds those and no others. */
  lemma InRun(s: string, first: char, c: char)
    requires first as int + |s| <= 128 && forall i :: 0 <= i < |s| ==> s[i] as int == first as int + i
    ensures c in s <==> first as int <= c as int < first as int + |s|
  {
    if first as int <= c as int < first as int + |s| {
      assert s[c as int - first as int] == c;
    }
  }

  lemma CountsAre(c: char)
    ensures Counts(c) <==> 'a' <= LowerChar(c) <= 'z' || '0' <= LowerChar(c) <= '9'
  {
    forall i: nat | i < 26
      ensures CAPITALS[i] as int == 'A' as int + i && SMALL[i] as int == 'a' as int + i
    {
      Letters(i);
    }
    forall i: nat | i < 10
      ensures DIGITS[i] as int == '0' as int + i
    {
      Numerals(i);
    }
    InRun(CAPITALS, 'A', c);
    InRun(SMALL, 'a', c);
    InRun(DIGITS, '0', c);
  }

  lemma AlikeAre(c: char, d: char)
    requires Counts(c) && Counts(d)
    ensures Alike(c, d) <==> LowerChar(c) == LowerChar(d)
  {
    hide Counts;
    CountsAre(c);
    CountsAre(d);
    forall i: nat | i < 26
      ensures LowerChar(CAPITALS[i]) == SMALL[i] == LowerChar(SMALL[i])
    {
      Letters(i);
    }
    if LowerChar(c) == LowerChar(d) && c != d {
      Letters(LowerChar(c) as int - 'a' as int);
    }
  }

  /** A normalized name is its letters and digits in lower case. */
  lemma {:induction false} NormalizedIs(name: string)
    ensures |NormalizeField(name)| == |Kept(name)|
    ensures forall i :: 0 <= i < |Kept(name)| ==> NormalizeField(name)[i] == LowerChar(Kept(name)[i])
  {
    hide Counts;
    if name != "" {
      NormalizedIs(name[..|name| - 1]);
      CountsAre(name[|name| - 1]);
    }
  }

  /** Names normalize alike exactly when they are the same in this sense. */
  lemma NormalizedSame(a: string, b: string)
    ensures NormalizeField(a) == NormalizeField(b) <==> SameName(a, b)
  {
    hide Counts, Alike;
    NormalizedIs(a);
    NormalizedIs(b);
    var x, y := Kept(a), Kept(b);
    if |x| == |y| {
      forall i | 0 <= i < |x|
        ensures Alike(x[i], y[i]) <==> NormalizeField(a)[i] == NormalizeField(b)[i]
      {
        assert x[i] in x && y[i] in y;
        AlikeAre(x[i], y[i]);
      }
    }
  }

  // ---- what follows for plans ----

  /** Step `p` lists a field of that name. */
  predicate Gives(bound: seq<Bound>, p: nat, param: string)
    requires p < |bound|
  {
    exists f :: 0 <= f < |bound[p].step.produces| && SameName(bound[p].step.produces[f], param)
  }

  lemma GivesIs(bound: seq<Bound>, p: nat, param: string)
    requires p < |bound|
    ensures Gives(bound, p, param) <==> Produces(bound[p].step.produces, NormalizeField(param))
  {
    hide NormalizeField, SameName;
    forall f | 0 <= f < |bound[p].step.produces|
      ensures SameName(bound[p].step.produces[f], param) <==> NormalizeField(bound[p].step.produces[f]) == NormalizeField(param)
    {
      NormalizedSame(bound[p].step.produces[f], param);
    }
  }

  /**
   A required parameter without a hint is drawn from the earliest step that lists a field of its name, if that comes
   before the consumer; it is missing if no step before the consumer does.
   */
  lemma WiredByName(bound: seq<Bound>, i: nat, param: string, p: nat)
    requires i < |bound| && p <= i && param in Required(bound[i]) && Absent(Property(bound[i].step.argsHint, param))
    requires forall j :: 0 <= j < p ==> !Gives(bound, j, param)
    ensures p == i ==> Resolved(bound, i).argSources[param] == Missing
    ensures p < i && Gives(bound, p, param) && bound[p].step.id != "" ==>
              Resolved(bound, i).argSources[param] == Output(bound[p].step.id, param) && bound[p].step.id in Resolved(bound, i).needs
  {
    hide NormalizeField, RequiredParamNames, Produces, Gives;
    forall j | 0 <= j < |bound|
      ensures Gives(bound, j, param) <==> Produces(bound[j].step.produces, NormalizeField(param))
    {
      GivesIs(bound, j, param);
    }
    if p < i && Gives(bound, p, param) && bound[p].step.id != "" {
      WiredToEarliest(bound, i, param, p);
      NeedsAre(bound, i, bound[p].step.id);
      assert FromOutput(Resolved(bound, i).argSources[param], bound[p].step.id);
    }
  }

  /** An output is read by the very name, or else by the first of the same name, or else whole. */
  lemma ExtractsByName(fields: seq<Field>, field: string, k: nat)
    requires forall j :: 0 <= j < |fields| ==> fields[j].name != field
    requires k <= |fields| && forall j :: 0 <= j < k ==> !SameName(fields[j].name, field)
    ensures k < |fields| && SameName(fields[k].name, field) ==> ExtractField(Value.Record(fields), field) == fields[k].value
    ensures k == |fields| ==> ExtractField(Value.Record(fields), field) == Value.Record(fields)
  {
    hide NormalizeField, SameName;
    forall j | 0 <= j < |fields|
      ensures SameName(fields[j].name, field) <==> NormalizeField(fields[j].name) == NormalizeField(field)
    {
      NormalizedSame(fields[j].name, field);
    }
    ExtractsField(fields, field);
    assert k < |fields| && SameName(fields[k].name, field) ==> FirstAlike(fields, k, NormalizeField(field));
  }
}
