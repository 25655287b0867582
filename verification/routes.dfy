/**
  The paths the pages navigate to, and the submission route
  `/submit/:fieldId/:subcategory` read back into its two parameters. A page's
  render is modelled as an outcome: a redirect (a `navigate` call while
  rendering nothing), a rendered view, or a thrown exception.
 */
module Routes {
  import opened Wrappers

  const HomePath := "/"
  const CommunityPath := "/community"
  const SubmitPrefix := "/submit/"

  datatype Outcome<V> = Redirect(to: string) | Render(view: V) | Throws

  /** A route parameter that fills one path segment: not empty, no `/`. */
  predicate Segment(s: string)
  {
    s != "" && '/' !in s
  }

  /** `` `/submit/${fieldId}/${subcategoryId}` `` */
  function SubmitPath(fieldId: string, subcategoryId: string): (p: string)
    ensures |p| == |SubmitPrefix| + |fieldId| + 1 + |subcategoryId|
    ensures p[..|SubmitPrefix|] == SubmitPrefix
  {
    SubmitPrefix + fieldId + "/" + subcategoryId
  }

  /** The position of the first `/` in `s`. */
  function SlashIndex(s: string): (r: Option<nat>)
    ensures r.None? <==> '/' !in s
    ensures r.Some? ==> r.value < |s| && s[r.value] == '/' && '/' !in s[..r.value]
  {
    if |s| == 0 then None
    else if s[0] == '/' then Some(0)
    else
      var r := SlashIndex(s[1..]);
      if r.None? then None
      else
        assert s[..r.value + 1] == [s[0]] + s[1..][..r.value];
        Some(r.value + 1)
  }

  /** The parameters of a path matching `/submit/:fieldId/:subcategory`. */
  function ParseSubmitPath(p: string): (r: Option<(string, string)>)
    ensures r.Some? ==> Segment(r.value.0) && Segment(r.value.1) && p == SubmitPath(r.value.0, r.value.1)
  {
    if |p| < |SubmitPrefix| || p[..|SubmitPrefix|] != SubmitPrefix then None
    else
      var rest := p[|SubmitPrefix|..];
      match SlashIndex(rest)
      case None => None
      case Some(k) =>
        var f, s := rest[..k], rest[k + 1..];
        if Segment(f) && Segment(s) then
          assert rest == f + "/" + s;
          assert p == p[..|SubmitPrefix|] + rest;
          Some((f, s))
        else None
  }

  /** Reading back a path built from two segments gives the segments. */
  lemma ParseSubmitPathRoundTrip(fieldId: string, subcategoryId: string)
    ensures Segment(fieldId) && Segment(subcategoryId) ==>
      ParseSubmitPath(SubmitPath(fieldId, subcategoryId)) == Some((fieldId, subcategoryId))
  {
    if !(Segment(fieldId) && Segment(subcategoryId)) {
      return;
    }
    var p := SubmitPath(fieldId, subcategoryId);
    var rest := p[|SubmitPrefix|..];
    assert rest == fieldId + "/" + subcategoryId;
    var k := SlashIndex(rest);
    assert rest[|fieldId|] == '/';
    assert rest[..|fieldId|] == fieldId;
    assert rest[|fieldId| + 1..] == subcategoryId;
  }
}
