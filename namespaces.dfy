/** XmlNamespacesContext: the fixed prefix-to-namespace table used to
    evaluate XPath expressions over dataset.xml and files.xml, with the
    forward and reverse lookups of a NamespaceContext. The namespace URIs
    themselves are constants of the XmlNamespaces interface and are a
    parameter here. */
module Namespaces {
  import opened Outcomes

  /** The NAMESPACE_* constants the table refers to. */
  datatype NamespaceUris = NamespaceUris(
    xml: string, dc: string, dcterms: string, dcxDai: string, ddm: string,
    xsi: string, idType: string, dcxGml: string, filesXml: string, openGis: string)

  /** The table, with dcterms bound under two prefixes. */
  function Table(u: NamespaceUris): map<string, string> {
    map[
      "xml" := u.xml,
      "dc" := u.dc,
      "dct" := u.dcterms,
      "dcx-dai" := u.dcxDai,
      "ddm" := u.ddm,
      "dcterms" := u.dcterms,
      "xsi" := u.xsi,
      "id-type" := u.idType,
      "dcx-gml" := u.dcxGml,
      "files" := u.filesXml,
      "gml" := u.openGis]
  }

  /** The prefixes bound to namespaceUri. */
  function PrefixesOf(table: map<string, string>, namespaceUri: string): set<string> {
    set p | p in table && table[p] == namespaceUri
  }

  /** The eleven prefixes; each is bound to its own constant. */
  lemma TableBindings(u: NamespaceUris)
    ensures Table(u).Keys == {"xml", "dc", "dct", "dcx-dai", "ddm", "dcterms", "xsi", "id-type", "dcx-gml", "files", "gml"}
    ensures Table(u)["dct"] == Table(u)["dcterms"] == u.dcterms
    ensures Table(u)["ddm"] == u.ddm && Table(u)["files"] == u.filesXml && Table(u)["id-type"] == u.idType
  {
  }

  /** When the constants are distinct, the dcterms namespace has exactly the
      prefixes "dct" and "dcterms", and every other constant one prefix. */
  lemma DctermsHasTwoPrefixes(u: NamespaceUris)
    requires u.dcterms !in {u.xml, u.dc, u.dcxDai, u.ddm, u.xsi, u.idType, u.dcxGml, u.filesXml, u.openGis}
    ensures PrefixesOf(Table(u), u.dcterms) == {"dct", "dcterms"}
  {
    var t := Table(u);
    forall p | p in PrefixesOf(t, u.dcterms) ensures p == "dct" || p == "dcterms" {
      TableBindings(u);
    }
    assert "dct" in t && "dcterms" in t;
  }

  /** The context object; the table never changes once built. */
  class XmlNamespacesContext {
    const prefixToNamespaceMap: map<string, string>

    constructor (u: NamespaceUris)
      ensures prefixToNamespaceMap == Table(u)
    {
      prefixToNamespaceMap := Table(u);
    }

    /** getNamespaceURI: the bound URI, null for an unknown prefix. */
    function GetNamespaceURI(prefix: string): (r: Option<string>)
      ensures r.Some? <==> prefix in prefixToNamespaceMap
    {
      if prefix in prefixToNamespaceMap then Some(prefixToNamespaceMap[prefix]) else None
    }

    /** getPrefix: the first entry met whose URI is namespaceUri; the entry
        order of the HashMap is not modelled, so any bound prefix may come. */
    method GetPrefix(namespaceUri: string) returns (r: Option<string>)
      ensures r.Some? ==> r.value in PrefixesOf(prefixToNamespaceMap, namespaceUri)
      ensures r.Some? ==> GetNamespaceURI(r.value) == Some(namespaceUri)
      ensures r.None? <==> PrefixesOf(prefixToNamespaceMap, namespaceUri) == {}
    {
      var todo := prefixToNamespaceMap.Keys;
      while todo != {}
        invariant todo <= prefixToNamespaceMap.Keys
        invariant forall p :: p in prefixToNamespaceMap && p !in todo ==> prefixToNamespaceMap[p] != namespaceUri
        decreases todo
      {
        var prefix :| prefix in todo;
        if prefixToNamespaceMap[prefix] == namespaceUri {
          return Some(prefix);
        }
        todo := todo - {prefix};
      }
      return None;
    }

    /** getPrefixes: every prefix bound to namespaceUri, each once, in the
        (unmodelled) entry order of the HashMap. */
    method GetPrefixes(namespaceUri: string) returns (r: seq<string>)
      ensures forall p :: p in r <==> p in PrefixesOf(prefixToNamespaceMap, namespaceUri)
      ensures forall i, j :: 0 <= i < j < |r| ==> r[i] != r[j]
      ensures |r| == |PrefixesOf(prefixToNamespaceMap, namespaceUri)|
    {
      r := [];
      ghost var seen: set<string> := {};
      var todo := prefixToNamespaceMap.Keys;
      while todo != {}
        invariant todo <= prefixToNamespaceMap.Keys
        invariant seen == prefixToNamespaceMap.Keys - todo
        invariant forall p :: p in r <==> p in seen && prefixToNamespaceMap[p] == namespaceUri
        invariant forall i, j :: 0 <= i < j < |r| ==> r[i] != r[j]
        decreases todo
      {
        var prefix :| prefix in todo;
        if prefixToNamespaceMap[prefix] == namespaceUri {
          r := r + [prefix];
        }
        todo := todo - {prefix};
        seen := seen + {prefix};
      }
      assert seen == prefixToNamespaceMap.Keys;
      DistinctCount(r, PrefixesOf(prefixToNamespaceMap, namespaceUri));
    }
  }

  /** A sequence without repetitions has as many elements as its set. */
  lemma {:induction false} DistinctCount(r: seq<string>, s: set<string>)
    requires forall p :: p in r <==> p in s
    requires forall i, j :: 0 <= i < j < |r| ==> r[i] != r[j]
    ensures |r| == |s|
    decreases |r|
  {
    if r != [] {
      var rest := r[1..];
      forall p ensures p in rest <==> p in s - {r[0]} {
        if p in rest {
          var k :| 0 <= k < |rest| && rest[k] == p;
          assert r[k + 1] == p;
        }
      }
      DistinctCount(rest, s - {r[0]});
    }
  }
}
