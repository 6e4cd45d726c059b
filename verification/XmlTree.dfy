/** The tag stack of frontend/gpx-import.js (`parseXml`), over the tokens its expression cuts out of a text. */
module XmlTree {
  import opened Common

  /** Names are local and in lower case, texts and attribute values decoded; `<a/>` counts as `<a></a>`. */
  datatype Token = Open(name: string, attrs: seq<(string, string)>) | Close(name: string) | Words(text: string)

  datatype Item = Text(text: string) | Child(element: Element)

  datatype Element = Element(name: string, attrs: seq<(string, string)>, items: seq<Item>)

  // ---------------------------------------------------------------- printing a tree as tokens

  function ItemTokens(item: Item): seq<Token>
    decreases item, 1
  {
    match item
    case Text(text) => [Words(text)]
    case Child(Element(name, attrs, items)) => [Open(name, attrs)] + ItemsTokens(items) + [Close(name)]
  }

  function ItemsTokens(items: seq<Item>): seq<Token>
    decreases items, 0
  {
    if items == [] then []
    else ItemsTokens(items[..|items| - 1]) + ItemTokens(items[|items| - 1])
  }

  // ---------------------------------------------------------------- building a tree from tokens

  /** An element that is open: what it holds so far. */
  datatype Frame = Frame(name: string, attrs: seq<(string, string)>, items: seq<Item>)
  {
    function With(item: Item): Frame {
      this.(items := items + [item])
    }
  }

  datatype Failure = NeverOpened | EndsInside

  datatype Outcome<+T> = Built(value: T) | Failed(why: Failure)

  const DOCUMENT: Frame := Frame("#document", [], [])

  /** One token of the source's loop; the last frame is the element that is open. */
  function Step(stack: seq<Frame>, token: Token): (r: Outcome<seq<Frame>>)
    requires stack != []
    ensures r.Built? ==> r.value != []
  {
    var top := |stack| - 1;
    match token
    case Words(text) => Built(stack[top := stack[top].With(Text(text))])
    case Open(name, attrs) => Built(stack + [Frame(name, attrs, [])])
    case Close(name) =>
      if top < 1 || stack[top].name != name then Failed(NeverOpened)
      else
        var f := stack[top];
        Built(stack[..top][top - 1 := stack[top - 1].With(Child(Element(f.name, f.attrs, f.items)))])
  }

  function Run(stack: seq<Frame>, tokens: seq<Token>): (r: Outcome<seq<Frame>>)
    requires stack != []
    ensures r.Built? ==> r.value != []
    decreases |tokens|
  {
    if tokens == [] then Built(stack)
    else match Step(stack, tokens[0])
      case Failed(why) => Failed(why)
      case Built(next) => Run(next, tokens[1..])
  }

  /** The items of the document, when every tag is closed by its own and none is left open. */
  function Build(tokens: seq<Token>): Outcome<seq<Item>> {
    match Run([DOCUMENT], tokens)
    case Failed(why) => Failed(why)
    case Built(stack) => if |stack| != 1 then Failed(EndsInside) else Built(stack[0].items)
  }

  method ParseTokens(tokens: seq<Token>) returns (r: Outcome<seq<Item>>)
    ensures r == Build(tokens)
  {
    var stack := [DOCUMENT];
    for n := 0 to |tokens|
      invariant stack != [] && Run([DOCUMENT], tokens) == Run(stack, tokens[n..])
    {
      var current := stack[|stack| - 1];
      assert tokens[n..][0] == tokens[n] && tokens[n..][1..] == tokens[n + 1..];
      match tokens[n] {
        case Words(text) =>
          stack := stack[|stack| - 1 := current.With(Text(text))];
        case Open(name, attrs) =>
          stack := stack + [Frame(name, attrs, [])];
        case Close(name) =>
          if |stack| < 2 || current.name != name {
            return Failed(NeverOpened);
          }
          stack := stack[..|stack| - 1];
          var parent := |stack| - 1;
          stack := stack[parent := stack[parent].With(Child(Element(current.name, current.attrs, current.items)))];
      }
    }
    r := if |stack| != 1 then Failed(EndsInside) else Built(stack[0].items);
  }

  // ---------------------------------------------------------------- every printed tree is built

  lemma {:induction false} RunConcat(stack: seq<Frame>, a: seq<Token>, b: seq<Token>)
    requires stack != []
    ensures Run(stack, a + b) == match Run(stack, a) case Failed(why) => Failed(why) case Built(next) => Run(next, b)
    decreases |a|
  {
    if a == [] {
      assert a + b == b;
    } else {
      assert (a + b)[1..] == a[1..] + b && (a + b)[0] == a[0];
      var next := Step(stack, a[0]);
      if next.Built? {
        RunConcat(next.value, a[1..], b);
      }
    }
  }

  lemma RunOne(stack: seq<Frame>, token: Token)
    requires stack != []
    ensures Run(stack, [token]) == Step(stack, token)
  {
    assert [token][1..] == [];
  }

  /** The stack with more items in the element that is open. */
  function Grown(stack: seq<Frame>, items: seq<Item>): seq<Frame>
    requires stack != []
  {
    var top := |stack| - 1;
    stack[top := stack[top].(items := stack[top].items + items)]
  }

  lemma {:induction false} RunItem(stack: seq<Frame>, item: Item)
    requires stack != []
    ensures Run(stack, ItemTokens(item)) == Built(Grown(stack, [item]))
    decreases item, 1
  {
    hide Run;
    match item
    case Text(text) => RunOne(stack, Words(text));
    case Child(Element(name, attrs, items)) =>
      var inner := stack + [Frame(name, attrs, [])];
      var open, body, close := [Open(name, attrs)], ItemsTokens(items), [Close(name)];
      RunOne(stack, Open(name, attrs));
      RunItems(inner, items);
      RunConcat(stack, open, body);
      RunConcat(stack, open + body, close);
      var full := Grown(inner, items);
      assert full[|stack|] == Frame(name, attrs, items);
      assert full[..|stack|] == stack;
      RunOne(full, Close(name));
  }

  lemma {:induction false} RunItems(stack: seq<Frame>, items: seq<Item>)
    requires stack != []
    ensures Run(stack, ItemsTokens(items)) == Built(Grown(stack, items))
    decreases items, 0
  {
    if items == [] {
      assert stack[|stack| - 1].items + [] == stack[|stack| - 1].items;
      assert Grown(stack, []) == stack;
    } else {
      hide Run;
      var before, last := items[..|items| - 1], items[|items| - 1];
      assert items == before + [last];
      RunItems(stack, before);
      RunConcat(stack, ItemsTokens(before), ItemTokens(last));
      RunItem(Grown(stack, before), last);
      var top := |stack| - 1;
      ConcatAssociates(stack[top].items, before, [last]);
      assert Grown(Grown(stack, before), [last]) == Grown(stack, items);
    }
  }

  // ---------------------------------------------------------------- and nothing else is

  /** The tokens read so far, from what the stack holds. */
  function StackTokens(stack: seq<Frame>): seq<Token> {
    if stack == [] then []
    else
      var top := |stack| - 1;
      StackTokens(stack[..top]) + (if top == 0 then [] else [Open(stack[top].name, stack[top].attrs)]) + ItemsTokens(stack[top].items)
  }

  lemma ItemsTokensStep(items: seq<Item>, item: Item)
    ensures ItemsTokens(items + [item]) == ItemsTokens(items) + ItemTokens(item)
  {
    assert (items + [item])[..|items|] == items;
  }

  lemma StepKeepsTokens(stack: seq<Frame>, token: Token)
    requires stack != [] && Step(stack, token).Built?
    ensures StackTokens(Step(stack, token).value) == StackTokens(stack) + [token]
  {
    hide ItemsTokens;
    var next, top := Step(stack, token).value, |stack| - 1;
    match token
    case Words(text) =>
      assert next[..top] == stack[..top];
      ItemsTokensStep(stack[top].items, Text(text));
    case Open(name, attrs) =>
      assert next[..top + 1] == stack;
      NoItems();
    case Close(name) =>
      var f, parent := stack[top], stack[top - 1];
      var child := Child(Element(f.name, f.attrs, f.items));
      assert next[..top - 1] == stack[..top][..top - 1];
      ItemsTokensStep(parent.items, child);
      ConcatThree(StackTokens(stack[..top]), [Open(f.name, f.attrs)], ItemsTokens(f.items), [Close(name)]);
      var under := StackTokens(stack[..top][..top - 1]) + (if top == 1 then [] else [Open(parent.name, parent.attrs)]);
      ConcatAssociates(under, ItemsTokens(parent.items), ItemTokens(child));
  }

  lemma NoItems()
    ensures ItemsTokens([]) == []
  {
  }

  lemma ConcatThree<T>(a: seq<T>, b: seq<T>, c: seq<T>, d: seq<T>)
    ensures a + (b + c + d) == a + b + c + d
  {
  }

  lemma {:induction false} RunKeepsTokens(stack: seq<Frame>, tokens: seq<Token>)
    requires stack != [] && Run(stack, tokens).Built?
    ensures StackTokens(Run(stack, tokens).value) == StackTokens(stack) + tokens
    decreases |tokens|
  {
    if tokens == [] {
      assert Run(stack, tokens) == Built(stack);
      assert StackTokens(stack) + tokens == StackTokens(stack);
    } else {
      hide StackTokens, Step;
      var next := Step(stack, tokens[0]).value;
      StepKeepsTokens(stack, tokens[0]);
      RunKeepsTokens(next, tokens[1..]);
      ConcatAssociates(StackTokens(stack), [tokens[0]], tokens[1..]);
      assert [tokens[0]] + tokens[1..] == tokens;
    }
  }

  lemma StackOfOne(f: Frame)
    ensures StackTokens([f]) == ItemsTokens(f.items)
  {
    assert [f][..0] == [];
    assert [] + [] + ItemsTokens(f.items) == ItemsTokens(f.items);
  }

  /** A document is built of exactly the tokens that print it; all others are refused. */
  lemma BuildInvertsPrinting(tokens: seq<Token>, items: seq<Item>)
    ensures Build(tokens) == Built(items) <==> tokens == ItemsTokens(items)
  {
    hide Run, ItemsTokens;
    if Build(tokens) == Built(items) {
      RunKeepsTokens([DOCUMENT], tokens);
      var stack := Run([DOCUMENT], tokens).value;
      assert stack == [stack[0]];
      StackOfOne(stack[0]);
      StackOfOne(DOCUMENT);
      NoItems();
    }
    if tokens == ItemsTokens(items) {
      RunItems([DOCUMENT], items);
      assert [] + items == items;
    }
  }
}
