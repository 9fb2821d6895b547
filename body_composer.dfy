/**
 * The GitHub issue body built for one Lighthouse ticket: a link to the
 * original, an attribution line, a rule, the latest body, then one block per
 * version after the first (the first version is the original submission).
 */
module BodyComposer {
  import opened Outcomes
  import opened Fence
  import opened Tickets

  /** The link, attribution and rule lines that open every body. */
  function Header(t: Ticket): (r: string)
    ensures "[Original issue](" + t.url + ")\n\n" + "Reported by: " + t.creator_name <= r
    ensures |r| >= 4 && r[|r| - 4..] == "---\n"
  {
    "[Original issue](" + t.url + ")\n\n"
    + "Reported by: " + t.creator_name + " @ " + t.created_at + "\n"
    + "---\n"
  }

  /** The rendering of one later version whose body is `body`. */
  function VersionBlock(v: Version, body: string): (r: string)
    ensures v.user_name + " @ " + v.created_at + "\n---\n" <= r
    ensures |r| == |v.user_name| + |v.created_at| + |body| + 10
    ensures r[|r| - 2..] == "\n\n"
  {
    v.user_name + " @ " + v.created_at + "\n" + "---\n" + ReplaceMarkers(body) + "\n\n"
  }

  /** `versions.slice(1)`: every version but the first; empty for an empty list. */
  function Later(versions: seq<Version>): (r: seq<Version>)
    ensures |r| == if |versions| == 0 then 0 else |versions| - 1
    ensures forall i :: 0 <= i < |r| ==> r[i] == versions[i + 1]
  {
    if versions == [] then [] else versions[1..]
  }

  /** Every version in `vs` has a body. */
  predicate AllBodies(vs: seq<Version>)
  {
    forall i :: 0 <= i < |vs| ==> vs[i].body.Some?
  }

  /** The blocks rendered for `vs`, in order. */
  function Blocks(vs: seq<Version>): seq<string>
    requires AllBodies(vs)
  {
    if vs == [] then []
    else Blocks(vs[..|vs| - 1]) + [VersionBlock(vs[|vs| - 1], vs[|vs| - 1].body.value)]
  }

  /** Concatenation of a sequence of strings, in order. */
  function Concat(parts: seq<string>): string
  {
    if parts == [] then "" else Concat(parts[..|parts| - 1]) + parts[|parts| - 1]
  }

  /** The issue body for `t`, or the failure JavaScript raises when `.replace`
      meets an absent body (the latest one, or that of a later version). */
  function Compose(t: Ticket): (r: Result<string>)
    ensures r.Err? ==> r.error == MissingBody(t.number)
  {
    if t.latest_body.None? || !AllBodies(Later(t.versions)) then Err(MissingBody(t.number))
    else Ok(Header(t) + ReplaceMarkers(t.latest_body.value) + "\n\n" + Concat(Blocks(Later(t.versions))))
  }

  /** One block per version, each rendering the version at the same index. */
  lemma {:induction false} BlocksShape(vs: seq<Version>)
    requires AllBodies(vs)
    ensures |Blocks(vs)| == |vs|
    ensures forall i :: 0 <= i < |vs| ==> Blocks(vs)[i] == VersionBlock(vs[i], vs[i].body.value)
    decreases |vs|
  {
    if vs != [] {
      var init := vs[..|vs| - 1];
      assert AllBodies(init) by {
        forall i | 0 <= i < |init| ensures init[i].body.Some? {
          assert init[i] == vs[i];
        }
      }
      BlocksShape(init);
    }
  }

  /** The body has exactly `max(0, |versions| - 1)` blocks; block `i` renders
      version `i + 1`, so the first version is never rendered as a block. */
  lemma ComposeBlocks(t: Ticket)
    requires Compose(t).Ok?
    ensures var n := if |t.versions| == 0 then 0 else |t.versions| - 1;
            |Blocks(Later(t.versions))| == n
    ensures forall i :: 0 <= i < |Blocks(Later(t.versions))| ==>
              Blocks(Later(t.versions))[i] == VersionBlock(t.versions[i + 1], t.versions[i + 1].body.value)
    ensures Compose(t).value ==
              Header(t) + ReplaceMarkers(t.latest_body.value) + "\n\n" + Concat(Blocks(Later(t.versions)))
  {
    BlocksShape(Later(t.versions));
  }

  /** Concatenating one more part appends it. */
  lemma ConcatSnoc(parts: seq<string>, x: string)
    ensures Concat(parts + [x]) == Concat(parts) + x
  {
    assert (parts + [x])[..|parts|] == parts;
  }

  /** Every body starts with the link line, then the attribution line and the
      rule, then the rewritten latest body and a blank line. */
  lemma ComposeStartsWithHeader(t: Ticket)
    requires Compose(t).Ok?
    ensures ("[Original issue](" + t.url + ")\n\n"
             + "Reported by: " + t.creator_name + " @ " + t.created_at + "\n---\n"
             + ReplaceMarkers(t.latest_body.value) + "\n\n") <= Compose(t).value
  {
  }

  /** Composition fails exactly when the latest body or the body of a later
      version is absent; the first version's body is never looked at. */
  lemma ComposeFailsIff(t: Ticket)
    ensures Compose(t).Err? <==>
              t.latest_body.None? || exists k :: 1 <= k < |t.versions| && t.versions[k].body.None?
  {
  }

  /** Replacing the first version (the original submission) by any other
      changes nothing in the composed body. */
  lemma ComposeIgnoresFirstVersion(t: Ticket, first: Version)
    requires |t.versions| >= 1
    ensures Compose(t.(versions := [first] + t.versions[1..])) == Compose(t)
  {
  }

  /** The text fields the body copies verbatim hold no `@@@`: the ticket's
      url, creator and date, and the author and date of every later version. */
  ghost predicate MetadataUnmarked(t: Ticket)
  {
    NoMarker(t.url) && NoMarker(t.creator_name) && NoMarker(t.created_at) &&
    forall i :: 1 <= i < |t.versions| ==>
      NoMarker(t.versions[i].user_name) && NoMarker(t.versions[i].created_at)
  }

  /** The ` @ ` separator holds a single `@`. */
  lemma SeparatorUnmarked()
    ensures NoMarker(" @ ")
  {
    assert !MarkerAt(" @ ", 0);
  }

  /** A block whose author and date hold no `@@@` holds none. */
  lemma {:induction false} BlockUnmarked(v: Version, body: string)
    requires NoMarker(v.user_name) && NoMarker(v.created_at)
    ensures NoMarker(VersionBlock(v, body))
  {
    SeparatorUnmarked();
    NoAtNoMarker("\n");
    NoAtNoMarker("---\n");
    NoAtNoMarker("\n\n");
    ReplaceLeavesNoMarker(body);
    var x1 := v.user_name + " @ ";
    NoMarkerConcat(v.user_name, " @ ");
    var x2 := x1 + v.created_at;
    NoMarkerConcat(x1, v.created_at);
    var x3 := x2 + "\n";
    NoMarkerConcat(x2, "\n");
    var x4 := x3 + "---\n";
    NoMarkerConcat(x3, "---\n");
    var x5 := x4 + ReplaceMarkers(body);
    NoMarkerConcat(x4, ReplaceMarkers(body));
    NoMarkerConcat(x5, "\n\n");
  }

  /** The concatenated blocks hold no `@@@` when no author or date does. */
  lemma {:induction false} BlocksUnmarked(vs: seq<Version>)
    requires AllBodies(vs)
    requires forall i :: 0 <= i < |vs| ==> NoMarker(vs[i].user_name) && NoMarker(vs[i].created_at)
    ensures NoMarker(Concat(Blocks(vs)))
    ensures Concat(Blocks(vs)) == [] || Concat(Blocks(vs))[|Concat(Blocks(vs))| - 1] == '\n'
    decreases |vs|
  {
    if vs == [] {
      NoAtNoMarker("");
    } else {
      var init := vs[..|vs| - 1];
      var last := vs[|vs| - 1];
      var block := VersionBlock(last, last.body.value);
      assert forall i :: 0 <= i < |init| ==> init[i] == vs[i];
      BlocksUnmarked(init);
      BlockUnmarked(last, last.body.value);
      assert Blocks(vs) == Blocks(init) + [block];
      ConcatSnoc(Blocks(init), block);
      NoMarkerConcat(Concat(Blocks(init)), block);
    }
  }

  /** Every `@@@` of the ticket's bodies becomes a fence: when the fields the
      body copies verbatim hold no `@@@`, the whole composed body holds none. */
  lemma ComposedBodyHasNoMarker(t: Ticket)
    requires Compose(t).Ok?
    requires MetadataUnmarked(t)
    ensures NoMarker(Compose(t).value)
  {
    var later := Later(t.versions);
    BlocksUnmarked(later);
    SeparatorUnmarked();
    NoAtNoMarker("[Original issue](");
    NoAtNoMarker(")\n\n");
    NoAtNoMarker("Reported by: ");
    NoAtNoMarker("\n");
    NoAtNoMarker("---\n");
    NoAtNoMarker("\n\n");
    ReplaceLeavesNoMarker(t.latest_body.value);
    var h1 := "[Original issue](" + t.url;
    NoMarkerConcat("[Original issue](", t.url);
    var h2 := h1 + ")\n\n";
    NoMarkerConcat(h1, ")\n\n");
    var h3 := h2 + "Reported by: ";
    NoMarkerConcat(h2, "Reported by: ");
    var h4 := h3 + t.creator_name;
    NoMarkerConcat(h3, t.creator_name);
    var h5 := h4 + " @ ";
    NoMarkerConcat(h4, " @ ");
    var h6 := h5 + t.created_at;
    NoMarkerConcat(h5, t.created_at);
    var h7 := h6 + "\n";
    NoMarkerConcat(h6, "\n");
    var h8 := h7 + "---\n";
    NoMarkerConcat(h7, "---\n");
    assert h8 == Header(t);
    var b1 := h8 + ReplaceMarkers(t.latest_body.value);
    NoMarkerConcat(h8, ReplaceMarkers(t.latest_body.value));
    var b2 := b1 + "\n\n";
    NoMarkerConcat(b1, "\n\n");
    NoMarkerConcat(b2, Concat(Blocks(later)));
  }

  /** Rendering one more version appends its block. */
  lemma BlocksStep(vs: seq<Version>, i: int)
    requires 0 <= i < |vs| && AllBodies(vs[..i]) && vs[i].body.Some?
    ensures AllBodies(vs[..i + 1])
    ensures Concat(Blocks(vs[..i + 1])) == Concat(Blocks(vs[..i])) + VersionBlock(vs[i], vs[i].body.value)
  {
    assert vs[..i + 1][..i] == vs[..i];
    assert forall k :: 0 <= k < i + 1 ==> vs[..i + 1][k] == vs[k];
    assert forall k :: 0 <= k < i ==> vs[..i][k] == vs[k];
  }

  /** The header lines and latest body, appended one `+=` at a time. */
  lemma HeadAppended(t: Ticket, latest: string)
    ensures "" + "[Original issue](" + t.url + ")\n\n"
              + "Reported by: " + t.creator_name + " @ " + t.created_at + "\n"
              + "---\n"
              + ReplaceMarkers(latest) + "\n\n"
            == Header(t) + ReplaceMarkers(latest) + "\n\n"
  {
  }

  /** One version's lines, appended one `+=` at a time, form its block. */
  lemma BlockAppended(before: string, v: Version, body: string)
    ensures before + v.user_name + " @ " + v.created_at + "\n" + "---\n" + ReplaceMarkers(body) + "\n\n"
            == before + VersionBlock(v, body)
  {
  }

  /** With every body present, the composed body is the header, the
      rewritten latest body, a blank line and the concatenated blocks. */
  lemma ComposeWhenBodiesPresent(t: Ticket, head: string)
    requires t.latest_body.Some? && AllBodies(Later(t.versions))
    requires head == Header(t) + ReplaceMarkers(t.latest_body.value) + "\n\n"
    ensures Compose(t) == Ok(head + Concat(Blocks(Later(t.versions))))
  {
  }

  /** The loop of the script over `versions.slice(1)`: append each
      version's block to `body` with `+=`. It fails, as `.replace` on an
      absent body does, when some version has no body. */
  method AppendBlocks(body: string, later: seq<Version>) returns (r: Option<string>)
    ensures AllBodies(later) ==> r == Some(body + Concat(Blocks(later)))
    ensures !AllBodies(later) ==> r == None
  {
    var acc := body;
    var i := 0;
    while i < |later|
      invariant 0 <= i <= |later|
      invariant AllBodies(later[..i])
      invariant acc == body + Concat(Blocks(later[..i]))
    {
      var v := later[i];
      if v.body.None? {
        return None;
      }
      ghost var before := acc;
      acc := acc + v.user_name + " @ " + v.created_at + "\n";
      acc := acc + "---\n";
      acc := acc + ReplaceMarkers(v.body.value) + "\n\n";
      BlocksStep(later, i);
      assert acc == body + Concat(Blocks(later[..i + 1])) by {
        BlockAppended(before, v, v.body.value);
      }
      i := i + 1;
    }
    assert later[..i] == later;
    return Some(acc);
  }

  /** The script's body builder: `body` starts empty and grows with `+=`,
      first by the header and latest body, then by one block per later
      version. */
  method ComposeBody(t: Ticket) returns (r: Result<string>)
    ensures r == Compose(t)
  {
    if t.latest_body.None? {
      return Err(MissingBody(t.number));
    }
    var body := "";
    body := body + "[Original issue](" + t.url + ")\n\n";
    body := body + "Reported by: " + t.creator_name + " @ " + t.created_at + "\n";
    body := body + "---\n";
    body := body + ReplaceMarkers(t.latest_body.value) + "\n\n";
    HeadAppended(t, t.latest_body.value);
    var all := AppendBlocks(body, Later(t.versions));
    if all.None? {
      return Err(MissingBody(t.number));
    }
    ComposeWhenBodiesPresent(t, body);
    return Ok(all.value);
  }

}
