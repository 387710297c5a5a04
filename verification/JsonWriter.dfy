// The writer itself: fputc and fputs in loops and recursion, never holding more
// than a nesting level. What it appends to the file is what Json.Enc says.

module JsonWriter {
  import opened CStrings
  import opened Json

  class File {
    var content: string

    constructor ()
      ensures content == ""
    {
      content := "";
    }

    method Puts(s: string)
      modifies this
      ensures content == old(content) + s
    {
      content := content + s;
    }

    method Putc(c: char)
      modifies this
      ensures content == old(content) + [c]
    {
      content := content + [c];
    }
  }

  method WriteEscape(f: File, c: char)
    modifies f
    ensures f.content == old(f.content) + Escape(c)
  {
    match c {
      case '"' => f.Puts("\\\"");
      case '\\' => f.Puts("\\\\");
      case '\U{8}' => f.Puts("\\b");
      case '\U{C}' => f.Puts("\\f");
      case '\n' => f.Puts("\\n");
      case '\r' => f.Puts("\\r");
      case '\t' => f.Puts("\\t");
      case _ =>
        if c < ' ' {
          f.Puts("\\u00" + [HexDigit(c as nat / 16), HexDigit(c as nat % 16)]);
        } else {
          f.Putc(c);
        }
    }
  }

  lemma EscapeStep(u: string, p: nat, done: string)
    requires p < |u|
    ensures done + Escape(u[p]) + EscapeAll(u[p + 1..]) == done + EscapeAll(u[p..])
  {
    assert u[p..][1..] == u[p + 1..];
  }

  // A C string: the loop ends at its NUL, or at the end of what is modelled of it.
  method WriteString(f: File, s: Option<string>)
    modifies f
    ensures f.content == old(f.content) + EncString(s)
  {
    hide Escape, EscapeAll, Upto0;
    var t := if s.None? then "" else s.value;
    ghost var u := Text(s);
    assert u == Upto0(t) || t == u == "";
    f.Putc('"');
    var p := 0;
    ghost var whole := f.content + EscapeAll(u);
    assert u[0..] == u;
    while p < |t| && t[p] != '\0'
      invariant p <= |u| && f.content + EscapeAll(u[p..]) == whole
    {
      EscapeStep(u, p, f.content);
      WriteEscape(f, t[p]);
      p := p + 1;
    }
    NothingLeft(u[p..], f.content);
    f.Putc('"');
    assert f.content == old(f.content) + EncString(s);
  }

  lemma NothingLeft(u: string, done: string)
    requires u == ""
    ensures done + EscapeAll(u) == done
  {
  }

  // Nodes below an item, which bounds the recursion.
  ghost function Size(i: Item): nat
  {
    match i
    case Array(c) => 1 + SizeAll(c)
    case Object(c) => 1 + SizeAll(c)
    case _ => 1
  }

  ghost function SizeAll(c: Items): nat
  {
    match c
    case End => 0
    case Next(_, i, n) => 1 + Size(i) + SizeAll(n)
  }

  method WriteItem(f: File, item: Item)
    modifies f
    ensures f.content == old(f.content) + Enc(item)
    decreases Size(item), 1
  {
    match item {
      case Null => f.Puts("null");
      case False => f.Puts("false");
      case True => f.Puts("true");
      case Number(n) => f.Puts(EncNumber(n));
      case Str(s) => WriteString(f, s);
      case Array(_) => WriteArray(f, item);
      case Object(_) => WriteObject(f, item);
      case Other => f.Puts("null");
    }
  }

  lemma ArrayText(c: Items, end: Items, was: string, done: string)
    requires end.End? && done + EncElements(end) == was + "[" + EncElements(c)
    ensures done + "]" == was + Enc(Array(c))
  {
    hide EncElements;
    assert EncElements(end) == "" by { NoElements(end); }
    assert done + "" == done;
    assert was + "[" + EncElements(c) + "]" == was + ("[" + EncElements(c) + "]");
  }

  lemma NoElements(c: Items)
    ensures c.End? ==> EncElements(c) == ""
  {
  }

  method WriteArray(f: File, item: Item)
    requires item.Array?
    modifies f
    ensures f.content == old(f.content) + Enc(item)
    decreases Size(item), 0
  {
    hide Enc, EncElements;
    ghost var was := f.content;
    f.Putc('[');
    var c := item.child;
    ghost var whole := f.content + EncElements(c);
    while c.Next?
      invariant SizeAll(c) < Size(item) && f.content + EncElements(c) == whole
      decreases c
    {
      WriteElement(f, c);
      c := c.next;
    }
    ArrayText(item.child, c, was, f.content);
    f.Putc(']');
  }

  method WriteElement(f: File, c: Items)
    requires c.Next?
    modifies f
    ensures f.content + EncElements(c.next) == old(f.content) + EncElements(c)
    decreases SizeAll(c), 0
  {
    WriteItem(f, c.item);
    if c.next.Next? {
      f.Putc(',');
    }
    hide Enc;
    assert f.content + EncElements(c.next) == old(f.content) + EncElements(c);
  }

  lemma ObjectText(c: Items, end: Items, was: string, done: string)
    requires end.End? && done + EncMembers(end) == was + "{" + EncMembers(c)
    ensures done + "}" == was + Enc(Object(c))
  {
    hide EncMembers;
    assert EncMembers(end) == "" by { NoMembers(end); }
    assert done + "" == done;
    assert was + "{" + EncMembers(c) + "}" == was + ("{" + EncMembers(c) + "}");
  }

  lemma NoMembers(c: Items)
    ensures c.End? ==> EncMembers(c) == ""
  {
  }

  method WriteObject(f: File, item: Item)
    requires item.Object?
    modifies f
    ensures f.content == old(f.content) + Enc(item)
    decreases Size(item), 0
  {
    hide Enc, EncMembers;
    ghost var was := f.content;
    f.Putc('{');
    var c := item.child;
    ghost var whole := f.content + EncMembers(c);
    while c.Next?
      invariant SizeAll(c) < Size(item) && f.content + EncMembers(c) == whole
      decreases c
    {
      WriteMember(f, c);
      c := c.next;
    }
    ObjectText(item.child, c, was, f.content);
    f.Putc('}');
  }

  method WriteMember(f: File, c: Items)
    requires c.Next?
    modifies f
    ensures f.content + EncMembers(c.next) == old(f.content) + EncMembers(c)
    decreases SizeAll(c), 0
  {
    hide EncMembers, Enc, EncString;
    ghost var was := f.content;
    WriteString(f, c.key);
    f.Putc(':');
    WriteItem(f, c.item);
    if c.next.Next? {
      f.Putc(',');
    }
    MemberText(c, was);
  }

  lemma MemberText(c: Items, was: string)
    requires c.Next?
    ensures was + EncString(c.key) + ":" + Enc(c.item) + (if c.next.Next? then "," else "") + EncMembers(c.next)
         == was + EncMembers(c)
  {
    hide Enc, EncString;
  }
}
