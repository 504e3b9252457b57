/** What a template may contain and what the client may patch, by name. */
module LoweringSafety {
  import opened Text
  import opened LoweringModel
  import opened Evaluation
  import opened Lowering
  import opened PageMeaning
  import opened PageParts

  // Templates ---------------------------------------------------------------------------------

  const STATEFUL: set<string> := {"data-ax-signal", "data-ax-state-name", "data-ax-behavior",
    "data-ax-expression-protocol"}

  /** Attributes that tie an element to a state, a signal or a handler. */
  predicate IsStateful(name: string) {
    || name in STATEFUL
    || (|name| >= 11 && name[..11] == "data-ax-on-")
    || (|name| >= 14 && name[..14] == "data-ax-state-")
  }

  /** Some element of the trees has the tag. */
  ghost predicate HasTag(nodes: seq<Node>, tag: string) {
    exists node <- nodes :: node.Element? && (node.tag == tag || HasTag(node.children, tag))
  }

  /** Some element of the trees bears the attribute. */
  ghost predicate HasAttr(nodes: seq<Node>, name: string) {
    exists node <- nodes :: node.Element? && (name in node.attrs || HasAttr(node.children, name))
  }

  lemma HasFirst(nodes: seq<Node>, x: string)
    requires nodes != []
    ensures HasTag(nodes, x) <==>
            (nodes[0].Element? && (nodes[0].tag == x || HasTag(nodes[0].children, x))) || HasTag(nodes[1..], x)
    ensures HasAttr(nodes, x) <==>
            (nodes[0].Element? && (x in nodes[0].attrs || HasAttr(nodes[0].children, x))) || HasAttr(nodes[1..], x)
  {
    assert nodes[0] in nodes && forall node <- nodes[1..] :: node in nodes;
    assert forall node <- nodes :: node == nodes[0] || node in nodes[1..];
  }

  lemma StatefulExactly(name: string)
    ensures AttrIsSafe(name) <==> !IsStateful(name)
  {
  }

  /** A template holds no template, no mark, and no attribute of a state, a signal or a handler, at any depth. */
  lemma {:induction false} TemplateSafetyExactly(nodes: seq<Node>)
    ensures TemplateIsSafe(nodes) <==>
            && !HasTag(nodes, "template") && !HasTag(nodes, "ax-each-render-unsupported")
            && forall name :: HasAttr(nodes, name) ==> !IsStateful(name)
    decreases nodes
  {
    if nodes != [] {
      TemplateSafetyExactly(nodes[1..]);
      if nodes[0].Element? {
        TemplateSafetyExactly(nodes[0].children);
      }
      HasFirst(nodes, "template");
      HasFirst(nodes, "ax-each-render-unsupported");
      forall name ensures HasAttr(nodes, name) <==>
          || (nodes[0].Element? && (name in nodes[0].attrs || HasAttr(nodes[0].children, name)))
          || HasAttr(nodes[1..], name)
      {
        HasFirst(nodes, name);
      }
      forall name ensures AttrIsSafe(name) <==> !IsStateful(name) {
        StatefulExactly(name);
      }
    }
  }

  // Bindings ----------------------------------------------------------------------------------

  /** Addresses, styles, handlers and what describes the element itself are never patched. */
  predicate IsPatchable(name: string) {
    && name !in {"href", "src", "action", "formaction", "style", "html", "content", "as", "tag"}
    && name !in BEHAVIOR_NAMES
    && (|name| >= 2 ==> name[..2] !in {"on", "On", "oN", "ON"})
  }

  lemma PatchableExactly(name: string)
    ensures IsPatchable(name) <==> RenderTarget(name) == Some(name) && !IsUnpatchable(name)
    ensures RenderTarget(name) in {None, Some(name)}
  {
    BehaviorNames(name);
    if |name| >= 2 {
      assert name[..2] == [name[0], name[1]];
    }
  }

  /** A property is patched from its path: a boolean one by presence, any other one if it is there. */
  predicate IsPatchOf(x: RenderBinding, p: Prop, attrs: map<string, string>, scope: Scope) {
    && x.target == p.name && EachRenderPath(p.value, scope) == Some(x.path) && IsPatchable(p.name)
    && (p.name in BOOLEAN_NAMES || p.name in attrs)
    && x.mode == if p.name in BOOLEAN_NAMES then SetBoolean else SetAttribute
  }

  lemma MarkedPath(e: Expr, bad: bool, scope: Scope)
    ensures EachRenderPath(e, MarkIf(bad, scope)) == EachRenderPath(e, scope)
  {
  }

  lemma AttachesExactly(p: Prop, attrs: map<string, string>, scope: Scope)
    ensures var a := AttachProp(p, attrs, scope);
            && (a.scope == scope || a.scope == MarkIf(true, scope))
            && forall x :: x in a.bindings <==> IsPatchOf(x, p, attrs, scope)
  {
    PatchableExactly(p.name);
  }

  /** An element's bindings are those of its properties that have a path and can be patched, and no others. */
  lemma {:induction false} PatchedExactly(props: seq<Prop>, attrs: map<string, string>, scope: Scope)
    ensures forall x ::
              x in AttachProps(props, attrs, scope).bindings <==> exists p <- props :: IsPatchOf(x, p, attrs, scope)
    decreases |props|
  {
    if props != [] {
      var first := AttachProp(props[0], attrs, scope);
      AttachesExactly(props[0], attrs, scope);
      PatchedExactly(props[1..], attrs, first.scope);
      assert props[0] in props && forall p <- props[1..] :: p in props;
      assert forall p <- props :: p == props[0] || p in props[1..];
      forall x, p ensures IsPatchOf(x, p, attrs, first.scope) <==> IsPatchOf(x, p, attrs, scope) {
        MarkedPath(p.value, true, scope);
      }
    }
  }
}
