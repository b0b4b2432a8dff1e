/** Rendered inline content as a sequence of tags and text, and what it means for its tags to nest. */
module Tags {
  import opened Options

  datatype Tag = Em | Strong | Del | Anchor

  // A tag of an element that was written as HTML stands as it was written.
  datatype Token = Open(tag: Tag) | Close(tag: Tag) | Text(text: string) | Raw(name: string, end: bool, closed: bool)

  // Reads tokens left to right against the stack of open elements: a start tag pushes its element,
  // an end tag pops the innermost one, which must be its own, and neither text nor raw HTML changes anything.
  function Read(tokens: seq<Token>, open: seq<Tag>): Option<seq<Tag>> {
    if tokens == [] then Some(open)
    else match tokens[0]
      case Open(tag) => Read(tokens[1..], open + [tag])
      case Close(tag) =>
        if open != [] && open[|open| - 1] == tag then Read(tokens[1..], open[..|open| - 1]) else None
      case Text(_) => Read(tokens[1..], open)
      case Raw(_, _, _) => Read(tokens[1..], open)
  }

  // Inside any open elements, the tokens close exactly what they open, each end tag its own start tag.
  ghost predicate Nested(tokens: seq<Token>) {
    forall open: seq<Tag> :: Read(tokens, open) == Some(open)
  }

  lemma {:induction false} ReadConcat(a: seq<Token>, b: seq<Token>, open: seq<Tag>)
    ensures Read(a + b, open) ==
            match Read(a, open) case None => None case Some(after) => Read(b, after)
  {
    if a == [] {
      assert a + b == b;
    } else {
      assert (a + b)[1..] == a[1..] + b;
      match a[0]
      case Open(tag) => ReadConcat(a[1..], b, open + [tag]);
      case Close(tag) =>
        if open != [] && open[|open| - 1] == tag {
          ReadConcat(a[1..], b, open[..|open| - 1]);
        }
      case Text(_) => ReadConcat(a[1..], b, open);
      case Raw(_, _, _) => ReadConcat(a[1..], b, open);
    }
  }

  lemma NestedConcat(a: seq<Token>, b: seq<Token>)
    requires Nested(a) && Nested(b)
    ensures Nested(a + b)
  {
    forall open: seq<Tag> ensures Read(a + b, open) == Some(open) {
      ReadConcat(a, b, open);
    }
  }

  lemma NestedText(text: string)
    ensures Nested([Text(text)])
  {
  }

  lemma NestedRaw(token: Token)
    requires token.Raw?
    ensures Nested([token])
  {
  }

  lemma NestedWrap(tag: Tag, body: seq<Token>)
    requires Nested(body)
    ensures Nested([Open(tag)] + body + [Close(tag)])
  {
    var whole := [Open(tag)] + body + [Close(tag)];
    forall open: seq<Tag> ensures Read(whole, open) == Some(open) {
      assert whole[1..] == body + [Close(tag)];
      var inner := open + [tag];
      ReadConcat(body, [Close(tag)], inner);
      assert inner[..|inner| - 1] == open;
      assert Read([Close(tag)], inner) == Read([], open);
    }
  }
}
