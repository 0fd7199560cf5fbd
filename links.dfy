/**
 * Stream-link collection: the up to three `{prefix}server{i}URL` fields of
 * a JSON object, in the order i = 1, 2, 3, keeping those that hold a usable
 * URL.
 */
module Links {
  import opened Text

  /** Name of the i-th server field: `server1URL`, or `liveserver1URL` for prefix "live". */
  function ServerKey(prefix: string, i: nat): string
    requires 1 <= i <= 3
  {
    prefix + "server" + ["123"[i - 1]] + "URL"
  }

  /** A field value is a usable link when it is non-empty and is not "null" in any letter case. */
  predicate IsUsable(url: string) {
    url != "" && Lower(url) != "null"
  }

  /** What field `key` contributes: its value when present and usable, otherwise nothing. */
  function FieldLink(obj: map<string, string>, key: string): seq<string> {
    if key in obj && IsUsable(obj[key]) then [obj[key]] else []
  }

  /** Links contributed by the first `n` server fields, in field order. */
  function LinksThrough(obj: map<string, string>, prefix: string, n: nat): seq<string>
    requires n <= 3
  {
    if n == 0 then [] else LinksThrough(obj, prefix, n - 1) + FieldLink(obj, ServerKey(prefix, n))
  }

  /** The links of an object; an empty (or absent) object has none. */
  function UsableLinks(obj: map<string, string>, prefix: string): seq<string> {
    if |obj| == 0 then [] else LinksThrough(obj, prefix, 3)
  }

  /** Scans the three server fields in order and collects the usable ones. */
  method CollectLinks(obj: map<string, string>, prefix: string) returns (links: seq<string>)
    ensures links == UsableLinks(obj, prefix)
  {
    links := [];
    if |obj| == 0 {
      return;
    }
    for i := 1 to 4
      invariant links == LinksThrough(obj, prefix, i - 1)
    {
      var key := ServerKey(prefix, i);
      if key in obj {
        var url := obj[key];
        if url != "" && Lower(url) != "null" {
          links := links + [url];
        }
      }
    }
  }

  /** The three field names differ, so no field is read twice. */
  lemma ServerKeysDistinct(prefix: string, i: nat, j: nat)
    requires 1 <= i <= 3 && 1 <= j <= 3 && i != j
    ensures ServerKey(prefix, i) != ServerKey(prefix, j)
  {
    var n := |prefix| + 6;
    assert ServerKey(prefix, i)[n] != ServerKey(prefix, j)[n];
  }

  /**
   * The collected links are exactly field 1's, then field 2's, then field 3's
   * contribution: nothing is reordered or duplicated.
   */
  lemma UsableLinksInFieldOrder(obj: map<string, string>, prefix: string)
    ensures UsableLinks(obj, prefix) ==
      FieldLink(obj, ServerKey(prefix, 1)) + FieldLink(obj, ServerKey(prefix, 2))
        + FieldLink(obj, ServerKey(prefix, 3))
  {
    if |obj| == 0 {
      assert obj.Keys == {};
      assert forall i :: 1 <= i <= 3 ==> ServerKey(prefix, i) !in obj;
    } else {
      var l1 := LinksThrough(obj, prefix, 1);
      var l2 := LinksThrough(obj, prefix, 2);
      assert LinksThrough(obj, prefix, 0) == [];
      assert l1 == LinksThrough(obj, prefix, 0) + FieldLink(obj, ServerKey(prefix, 1));
      assert l2 == l1 + FieldLink(obj, ServerKey(prefix, 2));
      assert LinksThrough(obj, prefix, 3) == l2 + FieldLink(obj, ServerKey(prefix, 3));
    }
  }

  /** At most one link per server field. */
  lemma UsableLinksBound(obj: map<string, string>, prefix: string)
    ensures |UsableLinks(obj, prefix)| <= 3
  {
    UsableLinksInFieldOrder(obj, prefix);
  }

  /**
   * Soundness: every collected link is the value of one of the three server
   * fields, is non-empty and does not spell "null" in any letter case.
   */
  lemma {:induction false} LinksAreUsable(obj: map<string, string>, prefix: string, l: string)
    requires l in UsableLinks(obj, prefix)
    ensures l != "" && Lower(l) != "null"
    ensures !(|l| == 4 && l[0] in "nN" && l[1] in "uU" && l[2] in "lL" && l[3] in "lL")
    ensures exists i :: 1 <= i <= 3 && ServerKey(prefix, i) in obj && obj[ServerKey(prefix, i)] == l
  {
    UsableLinksInFieldOrder(obj, prefix);
    LowerIsNull(l);
    if l in FieldLink(obj, ServerKey(prefix, 1)) {
      assert ServerKey(prefix, 1) in obj && obj[ServerKey(prefix, 1)] == l;
    } else if l in FieldLink(obj, ServerKey(prefix, 2)) {
      assert ServerKey(prefix, 2) in obj && obj[ServerKey(prefix, 2)] == l;
    } else {
      assert ServerKey(prefix, 3) in obj && obj[ServerKey(prefix, 3)] == l;
    }
  }

  /** Completeness: every server field holding a usable value is collected. */
  lemma LinksAreComplete(obj: map<string, string>, prefix: string, i: nat)
    requires 1 <= i <= 3
    requires ServerKey(prefix, i) in obj && IsUsable(obj[ServerKey(prefix, i)])
    ensures obj[ServerKey(prefix, i)] in UsableLinks(obj, prefix)
  {
    UsableLinksInFieldOrder(obj, prefix);
  }
}
