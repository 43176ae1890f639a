/** The string stack of util/stack.go. Its mutex is left out: the model is sequential. */
module StringStack {
  import opened Wrappers

  class Stack {
    var elements: seq<string>

    /** `New`: an empty stack. */
    constructor New()
      ensures elements == []
    {
      elements := [];
    }

    /** Puts `v` on top; nothing below it changes. */
    method Push(v: string)
      modifies this
      ensures elements == old(elements) + [v]
    {
      elements := elements + [v];
    }

    /** Takes the top element off; on an empty stack reports an error, returns "" and
        leaves the stack as it was. */
    method Pop() returns (top: string, err: Option<string>)
      modifies this
      ensures old(elements) == [] ==> top == "" && err == Some("stack is empty") && elements == []
      ensures old(elements) != [] ==>
        && err == None
        && top == old(elements)[|old(elements)| - 1]
        && elements == old(elements)[..|old(elements)| - 1]
    {
      var stackSize := |elements|;
      if stackSize == 0 {
        return "", Some("stack is empty");
      }
      top := elements[stackSize - 1];
      elements := elements[..stackSize - 1];
      err := None;
    }
  }

  /** A push followed by a pop hands back the pushed value and restores the stack. */
  method PushThenPop(s: Stack, v: string) returns (top: string)
    modifies s
    ensures top == v && s.elements == old(s.elements)
  {
    s.Push(v);
    var err;
    top, err := s.Pop();
    assert s.elements == old(s.elements) + [v] || err == None;
    assert (old(s.elements) + [v])[..|old(s.elements)|] == old(s.elements);
  }
}
