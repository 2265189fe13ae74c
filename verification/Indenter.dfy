/** StandardIndenter (indenter.go): a second stack, driven by events only. */
module Indenter {
  import opened Bytes
  import opened Nodes
  import opened Printer

  /** The declarations that stand on a line of their own. */
  predicate Declaration(k: NodeKind) {
    k == DTDEntityNode || k == DTDAttrNode || k == DTDElemNode || k == NotationNode
  }

  /** A line break may follow this event. */
  predicate EndsLine(e: Event) {
    Indenting(e.kind) || Declaration(e.kind) || (e.kind == CommentNode && e.state == StateEnded)
  }

  /** A line break may precede this event. */
  predicate StartsLine(e: Event) {
    && e.state != StateOpened
    && (Indenting(e.kind) || Declaration(e.kind) || (e.kind == CommentNode && e.state == StateOpen))
  }

  /** Whether a line break goes between two events. `quiet`: no node inside the one that is ending
      began on a line of its own. */
  predicate BreakDue(last: Event, next: Event, quiet: bool) {
    || (next.kind == DocNode && next.state == StateEnded)
    || (EndsLine(last) && StartsLine(next) &&
        !(Indenting(next.kind) && next.state == StateEnded &&
          (quiet || (next.kind == ElemNode && next.children == 0))))
  }

  /** The depth after an event. */
  function DepthAfter(depth: nat, next: Event): int {
    if !Indenting(next.kind) then depth
    else
      match next.state
      case StateOpen => depth
      case StateOpened => depth + 1
      case StateEnded => depth - 1
  }

  /** What an indenter has done so far: the line breaks it put in, and its stack. */
  datatype Pen = Pen(breaks: seq<Break>, stack: seq<nat>)

  /** The indenter is told of an event, when `at` bytes have been printed. The stack has one counter for each
      level: how many nodes at that level began on a line of their own. */
  function Tell(p: Pen, last: Event, next: Event, at: nat, newline: Str, unit: Str): Pen
    requires p.stack != []
  {
    var depth := |p.stack| - 1;
    var due := BreakDue(last, next, p.stack[depth] == 0);
    var level := if next.kind == DocNode || DepthAfter(depth, next) < 0 then 0 else DepthAfter(depth, next);
    Pen(if due then p.breaks + [Break(at, BreakText(newline, unit, level))] else p.breaks,
        if Indenting(next.kind) && next.state == StateOpened then p.stack + [0]
        else if Indenting(next.kind) && next.state == StateEnded then p.stack[..depth]
        else if due && next.state != StateEnded then p.stack[depth := p.stack[depth] + 1]
        else p.stack)
  }

  class StandardIndenter {
    const unit: Str
    var depth: nat
    var stack: seq<nat>

    ghost predicate Valid()
      reads this
    {
      |stack| == depth + 1
    }

    constructor (unit: Str)
      ensures Valid() && stack == [0] && this.unit == unit
    {
      this.unit := unit;
      depth := 0;
      stack := [0];
    }

    /** The first half of Indent: an indenting node that has been opened gets a level, and loses it at its end.
        `isInline`: no node at the level that is lost began on a line of its own. */
    method Shift(next: Event) returns (isInline: bool)
      requires Valid() && (Indenting(next.kind) && next.state == StateEnded ==> depth > 0)
      modifies this
      ensures Valid() && depth == DepthAfter(old(depth), next)
      ensures isInline <==> Indenting(next.kind) && next.state == StateEnded && old(stack[depth]) == 0
      ensures stack ==
        if Indenting(next.kind) && next.state == StateOpened then old(stack) + [0]
        else if Indenting(next.kind) && next.state == StateEnded then old(stack[..depth])
        else old(stack)
    {
      isInline := false;
      if next.kind == ElemNode || next.kind == DTDNode || next.kind == DTDAttListNode {
        if next.state == StateOpened {
          stack := stack + [0];
          depth := depth + 1;
        } else if next.state == StateEnded {
          isInline := stack[depth] == 0;
          depth := depth - 1;
          stack := stack[..|stack| - 1];
        }
      }
    }

    /** Whether the pair of events calls for a line break. */
    static method PairIndented(last: Event, next: Event) returns (paired: bool)
      ensures paired <==> EndsLine(last) && StartsLine(next)
    {
      var isIndenting := next.kind == ElemNode || next.kind == DTDNode || next.kind == DTDAttListNode;
      var isIndented := isIndenting;
      var isIndentedState := next.state == StateOpen || next.state == StateEnded;
      var lastIsIndenting := last.kind == ElemNode || last.kind == DTDNode || last.kind == DTDAttListNode;
      var lastIsIndented := lastIsIndenting || last.kind == DTDEntityNode || last.kind == DTDAttrNode ||
        last.kind == DTDElemNode || last.kind == NotationNode || (last.state == StateEnded && last.kind == CommentNode);
      if !isIndenting && isIndentedState {
        isIndented := next.kind == DTDEntityNode || next.kind == DTDAttrNode || next.kind == DTDElemNode ||
          next.kind == NotationNode || (next.state == StateOpen && next.kind == CommentNode);
      }
      var pairIsIndented := ((lastIsIndenting && isIndented) || (lastIsIndented && isIndenting) ||
          (isIndented && lastIsIndented)) && last.kind != DocNode;
      paired := pairIsIndented && isIndentedState;
    }

    method Indent(p: Printer, newline: Str, last: Event, next: Event)
      requires Valid() && p.Valid()
      requires Indenting(next.kind) && next.state == StateEnded ==> depth > 0
      modifies this, p
      ensures Valid() && p.Valid() && p.plain == old(p.plain)
      ensures depth == DepthAfter(old(depth), next)
      ensures Pen(p.breaks, stack) == Tell(Pen(old(p.breaks), old(stack)), last, next, |p.plain|, newline, unit)
    {
      hide Joined, Plain, Breaks, BreakText, EndsLine, StartsLine;
      var stackDepth := depth;
      var isInline := Shift(next);
      var paired := PairIndented(last, next);
      if paired {
        var isEmptyElem := next.kind == ElemNode && next.state == StateEnded && next.children == 0;
        var isInlineCloser := next.state == StateEnded && isInline;
        if !isEmptyElem && !isInlineCloser {
          if next.state != StateEnded {
            OpenStarts(next);
            stack := stack[stackDepth := stack[stackDepth] + 1];
          }
          p.WriteBreak(newline, unit, depth);
        }
      } else if next.kind == DocNode && next.state == StateEnded {
        p.WriteBreak(newline, unit, 0);
      }
      DocStartsNoLine(next);
    }

    static lemma OpenStarts(next: Event)
      requires StartsLine(next) && next.state != StateEnded
      ensures next.state == StateOpen
    {
    }

    static lemma DocStartsNoLine(next: Event)
      ensures next.kind == DocNode ==> !StartsLine(next)
    {
    }
  }
}
