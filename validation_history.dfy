/** The `ValidationHistory` component: the signed-in user's stored
    validations, newest first as the store returns them, with deletion and a
    detail view of one entry. */
module ValidationHistory {
  import opened Optional
  import opened Reports
  import IdeaValidator

  /** One row of the `validations` table as the component reads it. */
  datatype Validation = Validation(
    id: string,
    ideaTitle: string,
    ideaDescription: string,
    overallScore: int,
    createdAt: string,
    validationResult: ValidationResult)

  /** The stored row for an inserted one; `id` and `created_at` are assigned
      by the store. */
  function Stored(row: IdeaValidator.InsertRow, id: string, createdAt: string): Validation {
    Validation(id, row.ideaTitle, row.ideaDescription, row.overallScore, createdAt, row.validationResult)
  }

  // ---------------------------------------------------------------- deletion filter

  /** `prev.filter((v) => v.id !== id)`. */
  function RemoveId(s: seq<Validation>, id: string): (r: seq<Validation>)
    ensures |r| <= |s|
  {
    if s == [] then []
    else if s[0].id == id then RemoveId(s[1..], id)
    else [s[0]] + RemoveId(s[1..], id)
  }

  /** No entry with the id is left, and every entry left was there before. */
  lemma {:induction false} RemoveIdRemoves(s: seq<Validation>, id: string, v: Validation)
    requires v in RemoveId(s, id)
    ensures v in s && v.id != id
  {
    if s[0].id == id || v != s[0] {
      RemoveIdRemoves(s[1..], id, v);
    }
  }

  /** The filter works element by element and keeps the order: on a
      concatenation it is the concatenation of the filtered halves. */
  lemma {:induction false} RemoveIdAppend(s: seq<Validation>, t: seq<Validation>, id: string)
    ensures RemoveId(s + t, id) == RemoveId(s, id) + RemoveId(t, id)
  {
    if s == [] {
      assert s + t == t;
    } else {
      var u := s + t;
      assert u[0] == s[0] && u[1..] == s[1..] + t;
      RemoveIdAppend(s[1..], t, id);
      if s[0].id != id {
        assert RemoveId(u, id) == [s[0]] + RemoveId(s[1..] + t, id);
        assert [s[0]] + (RemoveId(s[1..], id) + RemoveId(t, id))
          == ([s[0]] + RemoveId(s[1..], id)) + RemoveId(t, id);
      }
    }
  }

  /** Every entry with another id is kept, as often as it occurs. */
  lemma {:induction false} RemoveIdKeepsOthers(s: seq<Validation>, id: string, v: Validation)
    requires v.id != id
    ensures multiset(RemoveId(s, id))[v] == multiset(s)[v]
  {
    if s != [] {
      RemoveIdKeepsOthers(s[1..], id, v);
      assert s == [s[0]] + s[1..];
    }
  }

  /** Deleting the same id twice changes nothing the second time. */
  lemma {:induction false} RemoveIdIdempotent(s: seq<Validation>, id: string)
    ensures RemoveId(RemoveId(s, id), id) == RemoveId(s, id)
  {
    if s != [] {
      RemoveIdIdempotent(s[1..], id);
    }
  }

  /** A list without the id is left as it is. */
  lemma {:induction false} RemoveAbsentId(s: seq<Validation>, id: string)
    requires forall i :: 0 <= i < |s| ==> s[i].id != id
    ensures RemoveId(s, id) == s
  {
    if s != [] {
      RemoveAbsentId(s[1..], id);
    }
  }

  // ---------------------------------------------------------------- list view

  /** The card description: at most 150 characters of the description, then "...". */
  function TruncateDescription(d: string): (r: string)
    ensures |r| <= 153
    ensures |d| <= 150 ==> r == d
    ensures |d| > 150 ==>
      (|r| == 153 && r[..150] == d[..150] && r[150] == '.' && r[151] == '.' && r[152] == '.')
  {
    if |d| > 150 then d[..150] + "..." else d
  }

  /** Decimal digits of a count, as JSX renders a number. */
  function NatToString(n: nat): (s: string)
    ensures |s| > 0
    ensures forall i :: 0 <= i < |s| ==> '0' <= s[i] <= '9'
    ensures s[0] == '0' ==> n == 0
    decreases n
  {
    if n < 10 then [DigitChar(n)] else NatToString(n / 10) + [DigitChar(n % 10)]
  }

  function DigitChar(d: nat): (c: char)
    requires d < 10
    ensures '0' <= c <= '9' && c as int == '0' as int + d
  {
    ('0' as int + d) as char
  }

  function DigitValue(c: char): nat {
    if '0' <= c <= '9' then (c as int - '0' as int) as nat else 0
  }

  /** Reads decimal digits back. */
  function ParseDecimal(s: string): nat
    decreases |s|
  {
    if s == [] then 0 else 10 * ParseDecimal(s[..|s| - 1]) + DigitValue(s[|s| - 1])
  }

  lemma DigitRoundTrip(d: nat)
    requires d < 10
    ensures DigitValue(DigitChar(d)) == d
  {
  }

  /** The rendered count reads back as the count. */
  lemma {:induction false} NatToStringRoundTrip(n: nat)
    ensures ParseDecimal(NatToString(n)) == n
    decreases n
  {
    DigitRoundTrip(n % 10);
    if n < 10 {
      assert [DigitChar(n)][..0] == [];
    } else {
      NatToStringRoundTrip(n / 10);
      var s := NatToString(n / 10) + [DigitChar(n % 10)];
      assert s[..|s| - 1] == NatToString(n / 10);
    }
  }

  /** The badge "{n} validation{s}". */
  function CountLabel(n: nat): (r: string)
    ensures |r| == |NatToString(n)| + 11 + (if n != 1 then 1 else 0)
    ensures r[..|NatToString(n)|] == NatToString(n)
    ensures r[|NatToString(n)|..|NatToString(n)| + 11] == " validation"
    ensures r[|r| - 1] == 's' <==> n != 1
  {
    NatToString(n) + " validation" + (if n != 1 then "s" else "")
  }

  /** The first five entries of a list, in their stored order. */
  function Preview<T>(s: seq<T>): (r: seq<T>)
    ensures |r| == if |s| < 5 then |s| else 5
    ensures forall i :: 0 <= i < |r| ==> r[i] == s[i]
  {
    if |s| <= 5 then s else s[..5]
  }

  /** The "Key Recommendations" card of the detail view. */
  function KeyRecommendations(v: Validation): (r: seq<string>)
    ensures var recs := v.validationResult.recommendations;
      |r| == (if |recs| < 5 then |recs| else 5) && forall i :: 0 <= i < |r| ==> r[i] == recs[i]
  {
    Preview(v.validationResult.recommendations)
  }

  /** The "Major Risks" card of the detail view. */
  function MajorRisks(v: Validation): (r: seq<string>)
    ensures var risks := v.validationResult.risks.majorRisks;
      |r| == (if |risks| < 5 then |risks| else 5) && forall i :: 0 <= i < |r| ==> r[i] == risks[i]
  {
    Preview(v.validationResult.risks.majorRisks)
  }

  /** The list badge reads the `overall_score` column. */
  function ListBadge(v: Validation): (b: string)
    ensures b == "default" <==> v.overallScore >= 80
    ensures b == "secondary" <==> 60 <= v.overallScore < 80
    ensures b == "destructive" <==> v.overallScore < 60
  {
    BadgeVariant(v.overallScore)
  }

  /** The detail badge reads the stored report's `overallScore`. */
  function DetailBadge(v: Validation): (b: string)
    ensures b == "default" <==> v.validationResult.overallScore >= 80
    ensures b == "secondary" <==> 60 <= v.validationResult.overallScore < 80
    ensures b == "destructive" <==> v.validationResult.overallScore < 60
  {
    BadgeVariant(v.validationResult.overallScore)
  }

  /** For a row the validator inserted, list and detail show the same band. */
  lemma BadgesAgreeOnInsertedRows(
    userId: string, form: IdeaValidator.IdeaForm, report: ValidationResult, id: string, createdAt: string)
    ensures ListBadge(Stored(IdeaValidator.RowFor(userId, form, report), id, createdAt))
      == DetailBadge(Stored(IdeaValidator.RowFor(userId, form, report), id, createdAt))
  {
  }

  // ---------------------------------------------------------------- component state

  /** The outcome of the history query: a store error, or the rows (null
      rows are None). */
  datatype Query = QueryFailed | Rows(data: Option<seq<Validation>>)

  class History {
    var validations: seq<Validation>
    var loading: bool
    var selected: Option<Validation>

    constructor()
      ensures validations == [] && loading && selected == None
    {
      validations := [];
      loading := true;
      selected := None;
    }

    /** `fetchValidations`: the rows replace the list (null rows give the
        empty list); on an error the list is kept. `loading` ends false. */
    method FetchValidations(query: Query)
      modifies this
      ensures query.Rows? && query.data.Some? ==> validations == query.data.value
      ensures query.Rows? && query.data.None? ==> validations == []
      ensures query.QueryFailed? ==> validations == old(validations)
      ensures !loading && selected == old(selected)
    {
      if query.Rows? {
        validations := if query.data.Some? then query.data.value else [];
      }
      loading := false;
    }

    /** `deleteValidation`: on success every entry with the id leaves the
        list; on a store error nothing changes. */
    method DeleteValidation(id: string, failed: bool)
      modifies this
      ensures failed ==> validations == old(validations)
      ensures !failed ==> validations == RemoveId(old(validations), id)
      ensures loading == old(loading) && selected == old(selected)
    {
      if !failed {
        validations := RemoveId(validations, id);
      }
    }

    /** "View Details" on a card. */
    method Select(v: Validation)
      modifies this
      ensures selected == Some(v)
      ensures validations == old(validations) && loading == old(loading)
    {
      selected := Some(v);
    }

    /** "Back to History". */
    method Back()
      modifies this
      ensures selected == None
      ensures validations == old(validations) && loading == old(loading)
    {
      selected := None;
    }
  }
}
