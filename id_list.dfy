/**
 * Serialisation of the ids of links to delete: the client sends `ids.join(',')`,
 * the server actions read `formData.get('ids')?.toString().split(',').map(Number)`.
 */
module IdList {
  import opened Wrappers
  import opened Text
  import opened Links

  /** `ids.join(',')` on numbers: their decimal renderings separated by commas. */
  function JoinIds(ids: seq<nat>): string {
    Join(seq(|ids|, i requires 0 <= i < |ids| => NatStr(ids[i])), ',')
  }

  /** `field.split(',').map(Number)`: one number per comma-separated token, in order. */
  function ParseIds(field: string): (r: seq<JsNumber>)
    ensures |r| == Count(field, ',') + 1 == |Split(field, ',')|
    ensures forall i :: 0 <= i < |r| ==> r[i] == ToNumber(Split(field, ',')[i])
  {
    SplitCount(field, ',');
    var tokens := Split(field, ',');
    seq(|tokens|, i requires 0 <= i < |tokens| => ToNumber(tokens[i]))
  }

  /** The numbers the server reads for `ids`, as values. */
  function Nums(ids: seq<nat>): (r: seq<JsNumber>)
    ensures |r| == |ids|
  {
    seq(|ids|, i requires 0 <= i < |ids| => Num(ids[i]))
  }

  /** Round trip: parsing the joined ids gives the ids back, for every non-empty list. */
  lemma ParseJoinRoundTrip(ids: seq<nat>)
    requires |ids| >= 1
    ensures ParseIds(JoinIds(ids)) == Nums(ids)
  {
    var parts := seq(|ids|, i requires 0 <= i < |ids| => NatStr(ids[i]));
    forall i | 0 <= i < |parts|
      ensures ',' !in parts[i]
    {
      NatStrExcludes(ids[i], ',');
    }
    SplitJoin(parts, ',');
    forall i | 0 <= i < |ids|
      ensures ParseIds(JoinIds(ids))[i] == Num(ids[i])
    {
      ToNumberOfNatStr(ids[i]);
    }
  }

  /** The empty list does not survive the trip: it joins to `''`, which parses as `[0]`. */
  lemma EmptyListDoesNotRoundTrip()
    ensures JoinIds([]) == ""
    ensures ParseIds("") == [Num(0)]
  {
    ToNumberOfNatStr(0);
  }

  /** As written: `formData.get('ids')?.toString().split(',').map(Number)`; `None` when the field is absent. */
  function IdsAsWritten(fd: FormData): Option<seq<JsNumber>> {
    if "ids" in fd then Some(ParseIds(fd["ids"])) else None
  }

  /** As written, the guard `!ids?.length` fires only for an absent field: a present field always yields a number. */
  lemma {:induction false} GuardAsWrittenOnlyCatchesAbsentField(fd: FormData)
    ensures var ids := IdsAsWritten(fd); (ids.None? || |ids.value| == 0) <==> "ids" !in fd
    ensures "ids" in fd && fd["ids"] == "" ==> IdsAsWritten(fd) == Some([Num(0)])
  {
    if "ids" in fd {
      SplitCount(fd["ids"], ',');
      EmptyListDoesNotRoundTrip();
    }
  }

  /** Corrected: an absent or empty `ids` field means no link is selected; otherwise the parsed ids. */
  function SelectedIds(fd: FormData): (r: Option<seq<JsNumber>>)
    ensures r.Some? ==> |r.value| >= 1
  {
    if Filled(fd, "ids") then Some(ParseIds(fd["ids"])) else None
  }

  /** Corrected behaviour: nothing is selected exactly when no id was sent, and the sent ids come back. */
  lemma SelectedIdsIffFilled(fd: FormData, ids: seq<nat>)
    ensures SelectedIds(fd).None? <==> !Filled(fd, "ids")
    ensures SelectedIds(fd).Some? ==> SelectedIds(fd) == IdsAsWritten(fd)
    ensures |ids| >= 1 && fd == map["ids" := JoinIds(ids)] ==> SelectedIds(fd) == Some(Nums(ids))
  {
    if |ids| >= 1 && fd == map["ids" := JoinIds(ids)] {
      ParseJoinRoundTrip(ids);
      assert JoinIds(ids) != "" by {
        JoinNonEmpty(ids);
      }
    }
  }

  lemma JoinNonEmpty(ids: seq<nat>)
    requires |ids| >= 1
    ensures |JoinIds(ids)| >= 1
  {
    var parts := seq(|ids|, i requires 0 <= i < |ids| => NatStr(ids[i]));
    if |ids| > 1 {
      assert Join(parts, ',') == parts[0] + [','] + Join(parts[1..], ',');
    }
  }
}
