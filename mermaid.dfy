/**
 * `generate_mermaid_from_json`: the flowchart the visualizer describes as
 * JSON (`{"nodes": [{"id", "text"}], "edges": [{"from", "to", "label"}]}`)
 * rendered as Mermaid text. Labels are reduced to CJK ideographs and ASCII
 * letters and digits so that they cannot break the Mermaid syntax; anything
 * that raises on the way gives a fixed failure diagram.
 */
module Mermaid {
  import opened Wrappers
  import opened PyText
  import opened PyJson
  import opened Extraction

  const Header: string := "graph TD"
  const NoDataNode: string := "A(暂无数据)"
  const EmptyDiagram: string := Header + "\n" + NoDataNode
  const FailedDiagram: string := "graph TD\nA(图表生成失败)"
  const DefaultNodeText: string := "节点"
  const BlankLabel: string := "操作"

  /** The characters the class `[一-龥a-zA-Z0-9]` admits. */
  predicate Allowed(c: char) {
    ('一' <= c <= '龥') || ('a' <= c <= 'z') || ('A' <= c <= 'Z') || ('0' <= c <= '9')
  }

  /** `re.sub(r"[^一-龥a-zA-Z0-9]", "", s)`: only admitted characters remain. */
  function SafeText(s: string): (r: string)
    ensures |r| <= |s|
    ensures forall k :: 0 <= k < |r| ==> Allowed(r[k])
    decreases |s|
  {
    if s == [] then []
    else (if Allowed(s[0]) then [s[0]] else []) + SafeText(s[1..])
  }

  /** Filtering works piece by piece. */
  lemma {:induction false} SafeTextAppend(a: string, b: string)
    ensures SafeText(a + b) == SafeText(a) + SafeText(b)
    decreases |a|
  {
    if a == [] {
      assert a + b == b;
    } else {
      assert (a + b)[0] == a[0] && (a + b)[1..] == a[1..] + b;
      SafeTextAppend(a[1..], b);
    }
  }

  /** Text made only of admitted characters passes unchanged; hence filtering is idempotent. */
  lemma {:induction false} SafeTextKeepsAllowed(s: string)
    requires forall k :: 0 <= k < |s| ==> Allowed(s[k])
    ensures SafeText(s) == s
    decreases |s|
  {
    if s != [] {
      SafeTextKeepsAllowed(s[1..]);
    }
  }

  lemma SafeTextIdempotent(s: string)
    ensures SafeText(SafeText(s)) == SafeText(s)
  {
    SafeTextKeepsAllowed(SafeText(s));
  }

  /** `x.replace(" ", "")`. */
  function NoSpaces(s: string): (r: string)
    ensures ' ' !in r
  {
    ReplaceCharGone(s);
    ReplaceAll(s, " ", "")
  }

  lemma {:induction false} ReplaceCharGone(s: string)
    ensures ' ' !in ReplaceAll(s, " ", "")
    decreases |s|
  {
    if s != [] {
      ReplaceCharGone(s[1..]);
    }
  }

  /** Filtering leaves nothing exactly when no character is admitted. */
  lemma {:induction false} SafeTextEmpty(s: string)
    ensures SafeText(s) == [] <==> forall k :: 0 <= k < |s| ==> !Allowed(s[k])
    decreases |s|
  {
    if s != [] {
      SafeTextEmpty(s[1..]);
      assert forall k :: 1 <= k < |s| ==> s[k] == s[1..][k - 1];
    }
  }

  /** The label of a node: its filtered text, or "操作" when nothing of the text is admitted. */
  function NodeLabel(text: string): (tag: string)
    ensures tag != [] && forall k :: 0 <= k < |tag| ==> Allowed(tag[k])
    ensures (exists k :: 0 <= k < |text| && Allowed(text[k])) ==> tag == SafeText(text)
    ensures (forall k :: 0 <= k < |text| ==> !Allowed(text[k])) ==> tag == BlankLabel
  {
    SafeTextEmpty(text);
    assert forall k :: 0 <= k < |BlankLabel| ==> Allowed(BlankLabel[k]);
    var safe := SafeText(text);
    if safe == [] then BlankLabel else safe
  }

  /** The node's id, "A" when it has none. */
  function NodeId(fields: seq<(string, Json)>): Json {
    DictGet(fields, "id", JStr("A"))
  }

  /** The node's text, "节点" when it has none. */
  function NodeText(fields: seq<(string, Json)>): Json {
    DictGet(fields, "text", JStr(DefaultNodeText))
  }

  /** The Mermaid line of one node, or `None` where the Python code raises. */
  function NodeLine(node: Json): (r: Option<string>)
    ensures r.Some? <==> node.JObj? && NodeId(node.fields).JStr? && NodeText(node.fields).JStr?
  {
    match node
    case JObj(fields) =>
      (match (NodeId(fields), NodeText(fields))
       case (JStr(id), JStr(text)) => Some(NoSpaces(id) + "(\"" + NodeLabel(text) + "\")")
       case _ => None)
    case _ => None
  }

  /** The Mermaid line of one edge, or `None` where the Python code raises. */
  function EdgeLine(edge: Json): (r: Option<string>)
    ensures r.Some? <==>
      && edge.JObj?
      && DictGet(edge.fields, "from", JNull).JStr?
      && DictGet(edge.fields, "to", JNull).JStr?
      && (Truthy(DictGet(edge.fields, "label", JStr(""))) ==> DictGet(edge.fields, "label", JStr("")).JStr?)
  {
    match edge
    case JObj(fields) =>
      (match (DictGet(fields, "from", JNull), DictGet(fields, "to", JNull), DictGet(fields, "label", JStr("")))
       case (JStr(source), JStr(target), caption) =>
         if !Truthy(caption) then Some(NoSpaces(source) + " --> " + NoSpaces(target))
         else if caption.JStr? then Some(NoSpaces(source) + " -- \"" + SafeText(caption.s) + "\" --> " + NoSpaces(target))
         else None
       case _ => None)
    case _ => None
  }

  /** The lines of all items, or `None` as soon as one of them raises. */
  function AllLines(items: seq<Json>, line: Json -> Option<string>): (r: Option<seq<string>>)
    ensures r.Some? <==> forall k :: 0 <= k < |items| ==> line(items[k]).Some?
    ensures r.Some? ==> |r.value| == |items| && forall k :: 0 <= k < |items| ==> r.value[k] == line(items[k]).value
    decreases |items|
  {
    if items == [] then Some([])
    else
      match (line(items[0]), AllLines(items[1..], line))
      case (Some(first), Some(rest)) =>
        assert forall k :: 1 <= k < |items| ==> items[k] == items[1..][k - 1];
        Some([first] + rest)
      case (None, _) => None
      case (_, None) =>
        assert forall k :: 1 <= k < |items| ==> items[k] == items[1..][k - 1];
        None
  }

  /** The diagram of a decoded reply as a list of lines, or `None` where the Python code raises. */
  function Lines(data: Json): (r: Option<seq<string>>)
    ensures r.Some? ==> |r.value| >= 1 && r.value[0] == Header
  {
    match data
    case JObj(fields) =>
      var nodes := DictGet(fields, "nodes", JArr([]));
      var edges := DictGet(fields, "edges", JArr([]));
      if !Truthy(nodes) then Some([Header, NoDataNode])
      else
        (match (Iterate(nodes), Iterate(edges))
         case (Some(ns), Some(es)) =>
           (match (AllLines(ns, NodeLine), AllLines(es, EdgeLine))
            case (Some(nodeLines), Some(edgeLines)) => Some([Header] + nodeLines + edgeLines)
            case _ => None)
         case _ => None)
    case _ => None
  }

  /** What `generate_mermaid_from_json(json_str)` returns. */
  function Diagram(reply: string, parse: Parser): string {
    match parse(CleanJsonText(reply))
    case Success(data) =>
      (match Lines(data)
       case Some(lines) => Join("\n", lines)
       case None => FailedDiagram)
    case Failure(_) => FailedDiagram
  }

  /** `generate_mermaid_from_json`: one line per node, then one per edge, joined by newlines. */
  method GenerateMermaid(reply: string, parse: Parser) returns (diagram: string)
    ensures diagram == Diagram(reply, parse)
  {
    var decoded := parse(CleanJsonText(reply));
    if decoded.Failure? {
      return FailedDiagram;
    }
    var lines := DiagramLines(decoded.value);
    if lines.None? {
      return FailedDiagram;
    }
    return Join("\n", lines.value);
  }

  /** The lines the Python code builds for a decoded reply, or `None` where it raises. */
  method DiagramLines(data: Json) returns (r: Option<seq<string>>)
    ensures r == Lines(data)
  {
    if !data.JObj? {
      return None;
    }
    var nodes := DictGet(data.fields, "nodes", JArr([]));
    var edges := DictGet(data.fields, "edges", JArr([]));
    if !Truthy(nodes) {
      return Some([Header, NoDataNode]);
    }
    var ns := Iterate(nodes);
    if ns.None? {
      return None;
    }
    var nodeLines := CollectLines(ns.value, NodeLine);
    if nodeLines.None? {
      return None;
    }
    var es := Iterate(edges);
    if es.None? {
      return None;
    }
    var edgeLines := CollectLines(es.value, EdgeLine);
    if edgeLines.None? {
      return None;
    }
    return Some([Header] + nodeLines.value + edgeLines.value);
  }

  /** `for item in items: lines.append(line(item))`, stopping at the first item that raises. */
  method CollectLines(items: seq<Json>, line: Json -> Option<string>) returns (r: Option<seq<string>>)
    ensures r == AllLines(items, line)
  {
    var lines := [];
    var i := 0;
    while i < |items|
      invariant 0 <= i <= |items|
      invariant AllLines(items[..i], line) == Some(lines)
    {
      var next := line(items[i]);
      if next.None? {
        AllLinesFails(items, line, i);
        return None;
      }
      AllLinesStep(items, i, line);
      lines := lines + [next.value];
      i := i + 1;
    }
    assert items[..i] == items;
    return Some(lines);
  }

  /** Collecting one more line extends the collected lines by it. */
  lemma {:induction false} AllLinesSnoc(items: seq<Json>, item: Json, line: Json -> Option<string>)
    requires AllLines(items, line).Some? && line(item).Some?
    ensures AllLines(items + [item], line) == Some(AllLines(items, line).value + [line(item).value])
  {
    var all := items + [item];
    assert forall k :: 0 <= k < |items| ==> all[k] == items[k];
    var r := AllLines(all, line).value;
    assert r == AllLines(items, line).value + [line(item).value];
  }

  lemma AllLinesStep(items: seq<Json>, i: nat, line: Json -> Option<string>)
    requires i < |items| && AllLines(items[..i], line).Some? && line(items[i]).Some?
    ensures AllLines(items[..i + 1], line) == Some(AllLines(items[..i], line).value + [line(items[i]).value])
  {
    assert items[..i + 1] == items[..i] + [items[i]];
    AllLinesSnoc(items[..i], items[i], line);
  }

  /** One item that raises makes the whole collection raise. */
  lemma AllLinesFails(items: seq<Json>, line: Json -> Option<string>, k: nat)
    requires k < |items| && line(items[k]).None?
    ensures AllLines(items, line).None?
  {
  }

  /** A joined text starts with its first part. */
  lemma JoinStartsWithFirst(sep: string, parts: seq<string>)
    requires parts != []
    ensures |Join(sep, parts)| >= |parts[0]| && Join(sep, parts)[..|parts[0]|] == parts[0]
  {
    if |parts| > 1 {
      var rest := Join(sep, parts[1..]);
      assert Join(sep, parts) == parts[0] + (sep + rest);
    }
  }

  /** Whatever the reply, the result is a Mermaid flowchart. */
  lemma DiagramIsFlowchart(reply: string, parse: Parser)
    ensures |Diagram(reply, parse)| >= |Header| && Diagram(reply, parse)[..|Header|] == Header
  {
    var decoded := parse(CleanJsonText(reply));
    if decoded.Success? && Lines(decoded.value).Some? {
      var lines := Lines(decoded.value).value;
      assert Diagram(reply, parse) == Join("\n", lines);
      JoinStartsWithFirst("\n", lines);
    } else {
      assert Diagram(reply, parse) == FailedDiagram;
      assert FailedDiagram[..|Header|] == Header;
    }
  }

  /**
   * A node line is `id("label")`: the node's id without spaces, and its
   * label, so no quote or parenthesis from the reply reaches the diagram.
   */
  lemma NodeLineShape(node: Json)
    requires NodeLine(node).Some?
    ensures NodeLine(node).value ==
      NoSpaces(NodeId(node.fields).s) + "(\"" + NodeLabel(NodeText(node.fields).s) + "\")"
    ensures ' ' !in NoSpaces(NodeId(node.fields).s)
  {
  }

  /**
   * An edge line is `from --> to` without a label, and `from -- "label" -->
   * to` with one, the label reduced to admitted characters.
   */
  lemma EdgeLineShape(edge: Json)
    requires EdgeLine(edge).Some?
    ensures var fields := edge.fields;
      var source := NoSpaces(DictGet(fields, "from", JNull).s);
      var target := NoSpaces(DictGet(fields, "to", JNull).s);
      var caption := DictGet(fields, "label", JStr(""));
      && (!Truthy(caption) ==> EdgeLine(edge).value == source + " --> " + target)
      && (Truthy(caption) ==>
            && caption.JStr?
            && EdgeLine(edge).value == source + " -- \"" + SafeText(caption.s) + "\" --> " + target
            && forall k :: 0 <= k < |SafeText(caption.s)| ==> Allowed(SafeText(caption.s)[k]))
  {
  }

  /** A decoded object with nodes gives one line per node and one per edge, after the header. */
  lemma LinesCount(fields: seq<(string, Json)>, ns: seq<Json>, es: seq<Json>)
    requires DictGet(fields, "nodes", JArr([])) == JArr(ns) && ns != []
    requires DictGet(fields, "edges", JArr([])) == JArr(es)
    requires Lines(JObj(fields)).Some?
    ensures |Lines(JObj(fields)).value| == 1 + |ns| + |es|
    ensures forall k :: 0 <= k < |ns| ==> Lines(JObj(fields)).value[k + 1] == NodeLine(ns[k]).value
    ensures forall k :: 0 <= k < |es| ==> Lines(JObj(fields)).value[k + 1 + |ns|] == EdgeLine(es[k]).value
  {
    LinesOfObject(fields, ns, es);
    HeadedConcat(Header, AllLines(ns, NodeLine).value, AllLines(es, EdgeLine).value);
  }

  /** With nodes, the lines are the header, the node lines and the edge lines. */
  lemma LinesOfObject(fields: seq<(string, Json)>, ns: seq<Json>, es: seq<Json>)
    requires DictGet(fields, "nodes", JArr([])) == JArr(ns) && ns != []
    requires DictGet(fields, "edges", JArr([])) == JArr(es)
    requires Lines(JObj(fields)).Some?
    ensures AllLines(ns, NodeLine).Some? && AllLines(es, EdgeLine).Some?
    ensures Lines(JObj(fields)).value == [Header] + AllLines(ns, NodeLine).value + AllLines(es, EdgeLine).value
  {
    assert Truthy(JArr(ns));
    assert Iterate(JArr(ns)) == Some(ns) && Iterate(JArr(es)) == Some(es);
  }

  /** Where the parts of `[h] + a + b` sit. */
  lemma HeadedConcat<T>(h: T, a: seq<T>, b: seq<T>)
    ensures |[h] + a + b| == 1 + |a| + |b|
    ensures forall k :: 0 <= k < |a| ==> ([h] + a + b)[k + 1] == a[k]
    ensures forall k :: 0 <= k < |b| ==> ([h] + a + b)[k + 1 + |a|] == b[k]
  {
  }

  /** Without nodes the diagram is the fixed placeholder, whatever the edges. */
  lemma DiagramWithoutNodes(reply: string, parse: Parser)
    requires parse(CleanJsonText(reply)).Success?
    requires parse(CleanJsonText(reply)).value.JObj?
    requires !Truthy(DictGet(parse(CleanJsonText(reply)).value.fields, "nodes", JArr([])))
    ensures Diagram(reply, parse) == EmptyDiagram
  {
    var data := parse(CleanJsonText(reply)).value;
    assert Lines(data) == Some([Header, NoDataNode]);
    DiagramOfLines(reply, parse, [Header, NoDataNode]);
    JoinPair("\n", Header, NoDataNode);
  }

  /** A decoded reply with lines is drawn as those lines joined by newlines. */
  lemma DiagramOfLines(reply: string, parse: Parser, lines: seq<string>)
    requires parse(CleanJsonText(reply)).Success?
    requires Lines(parse(CleanJsonText(reply)).value) == Some(lines)
    ensures Diagram(reply, parse) == Join("\n", lines)
  {
  }
}
