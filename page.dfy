/**
 * The result flow of main.js: `clear_display` and `check_geometry`, which
 * empty the display element and then append either one error paragraph or
 * the four nodes describing a possible triangle.
 *
 * A node's text is a tag carrying what the message interpolates (the sorted
 * side values, the type label, the area's radicand), not the Polish string.
 */
module Page {
  import opened Wrappers
  import opened Geometry
  import opened Collector

  datatype NodeKind = Paragraph | Image

  /** What a paragraph says. */
  datatype Message =
    | NotNumbers                              // "one or more sides are not numbers"
    | Impossible(a: real, b: real, c: real)   // "a triangle cannot be made from sides a, b, c"
    | Possible(a: real, b: real, c: real)     // "a triangle can be made from sides a, b, c"
    | TypeLabel(name: string)                 // "it is an <label> triangle"
    | AreaIs(radicand: real)                  // "the area is sqrt(radicand) to 2 places"

  datatype Payload = Text(message: Message) | Src(path: string)

  /** A created `p` or `img` element: its kind, its `className` and what it shows. */
  datatype Node = Node(kind: NodeKind, className: string, payload: Payload)

  const ErrorClass := "errmsg"
  const MessageClass := "msg"
  const ImageClass := "triangle-image"

  /** The label `check_geometry` writes for each triangle type. */
  function Label(t: TriangleType): (name: string)
  {
    match t
    case Ostrokatny => "ostrokątny"
    case Prostokatny => "prostokątny"
    case Rozwartokatny => "rozwartokątny"
  }

  /** The picture `check_geometry` shows for each triangle type. */
  function ImagePath(t: TriangleType): (path: string)
  {
    match t
    case Ostrokatny => "assets/ostrokatny.webp"
    case Prostokatny => "assets/prostokatny.webp"
    case Rozwartokatny => "assets/rozwartokatny.png"
  }

  /** Distinct types get distinct labels and distinct pictures, so each of the two names the type. */
  lemma LabelAndImageDetermineType(s: TriangleType, t: TriangleType)
    ensures Label(s) == Label(t) <==> s == t
    ensures ImagePath(s) == ImagePath(t) <==> s == t
  {
    if s != t {
      assert Label(s)[6] != Label(t)[6] || |Label(s)| != |Label(t)|;
      assert ImagePath(s)[7] != ImagePath(t)[7];
    }
  }

  /** How a submission ends. */
  datatype Outcome =
    | Unreadable
    | Rejected(a: real, b: real, c: real)
    | Accepted(a: real, b: real, c: real, kind: TriangleType, radicand: real)

  /**
   * The decision `check_geometry` takes once the sides are collected:
   * unreadable input, a sorted triple that fails `check_triangle`, or a
   * possible triangle with its type and Heron radicand. The radicand of an
   * accepted triangle is positive, so its square root is a real area.
   */
  function Judge(collected: Option<seq<real>>): (o: Outcome)
    requires collected.Some? ==> |collected.value| >= 3 && Sorted(collected.value)
    ensures o.Unreadable? <==> collected.None?
    ensures !o.Unreadable? ==> [o.a, o.b, o.c] == collected.value[..3]
    ensures o.Rejected? ==> o.a <= o.b <= o.c && o.a + o.b <= o.c
    ensures o.Accepted? ==> 0.0 < o.a <= o.b <= o.c && o.c < o.a + o.b && 0.0 < o.radicand
    ensures o.Accepted? ==> o.kind == GetTriangleType(collected.value) && o.radicand == HeronRadicand(collected.value)
  {
    match collected
    case None => Unreadable
    case Some(v) =>
      if !CheckTriangle(v) then Rejected(v[0], v[1], v[2])
      else
        HeronPositiveIffValid(v);
        Accepted(v[0], v[1], v[2], GetTriangleType(v), HeronRadicand(v))
  }

  /** How a submission with these input texts ends. */
  function Decide(texts: seq<string>, parse: string -> Option<real>): (o: Outcome)
    requires |texts| >= 3
  {
    Judge(Collect(texts, parse))
  }

  /** The nodes `check_geometry` leaves in the display for an outcome. */
  function Render(o: Outcome): (nodes: seq<Node>)
  {
    match o
    case Unreadable => [Node(Paragraph, ErrorClass, Text(NotNumbers))]
    case Rejected(a, b, c) => [Node(Paragraph, ErrorClass, Text(Impossible(a, b, c)))]
    case Accepted(a, b, c, t, r) =>
      [ Node(Paragraph, MessageClass, Text(Possible(a, b, c))),
        Node(Image, ImageClass, Src(ImagePath(t))),
        Node(Paragraph, MessageClass, Text(TypeLabel(Label(t)))),
        Node(Paragraph, MessageClass, Text(AreaIs(r))) ]
  }

  /** How many of `nodes` carry the class name `cls`. */
  function CountClass(nodes: seq<Node>, cls: string): (n: nat)
    ensures n <= |nodes|
  {
    if nodes == [] then 0
    else (if nodes[0].className == cls then 1 else 0) + CountClass(nodes[1..], cls)
  }

  /**
   * Either failure leaves exactly one node, an error paragraph, and no other
   * message; success leaves no error node and exactly four nodes in the
   * order message, picture, message, message, whose picture and label name
   * the same triangle type.
   */
  lemma {:induction false} RenderShape(o: Outcome)
    ensures !o.Accepted? ==> |Render(o)| == 1 && Render(o)[0].kind == Paragraph
                             && CountClass(Render(o), ErrorClass) == 1
    ensures o.Unreadable? ==> Render(o)[0].payload == Text(NotNumbers)
    ensures o.Rejected? ==> Render(o)[0].payload == Text(Impossible(o.a, o.b, o.c))
    ensures o.Accepted? ==> Render(o)[0].payload == Text(Possible(o.a, o.b, o.c))
    ensures o.Accepted? ==>
              |Render(o)| == 4 && CountClass(Render(o), ErrorClass) == 0
              && CountClass(Render(o), MessageClass) == 3 && CountClass(Render(o), ImageClass) == 1
              && Render(o)[0].className == MessageClass && Render(o)[1].className == ImageClass
              && Render(o)[2].className == MessageClass && Render(o)[3].className == MessageClass
              && Render(o)[1].kind == Image
              && Render(o)[1].payload == Src(ImagePath(o.kind))
              && Render(o)[2].payload == Text(TypeLabel(Label(o.kind)))
              && Render(o)[3].payload == Text(AreaIs(o.radicand))
  {
    var nodes := Render(o);
    assert ErrorClass != MessageClass && ErrorClass != ImageClass && MessageClass != ImageClass by {
      assert |ErrorClass| == 6 && |MessageClass| == 3 && |ImageClass| == 14;
    }
    if o.Accepted? {
      assert nodes[1..][1..][1..][1..] == [];
      forall cls ensures CountClass(nodes, cls) ==
        (if cls == MessageClass then 1 else 0) + (if cls == ImageClass then 1 else 0)
        + (if cls == MessageClass then 1 else 0) + (if cls == MessageClass then 1 else 0)
      {
        assert nodes[1..] == [nodes[1], nodes[2], nodes[3]];
        assert nodes[2..] == [nodes[2], nodes[3]];
        assert nodes[3..] == [nodes[3]];
        assert CountClass(nodes[3..], cls) == if cls == MessageClass then 1 else 0;
        assert CountClass(nodes[2..], cls) == CountClass(nodes[2..][1..], cls) + (if cls == MessageClass then 1 else 0);
        assert nodes[2..][1..] == nodes[3..] && nodes[1..][1..] == nodes[2..];
      }
    } else {
      assert nodes[1..] == [];
    }
  }

  /**
   * For three inputs, order does not matter: the submission is accepted
   * exactly when every input is readable and the numbers read, in the order
   * typed, satisfy all three strict triangle inequalities; the type shown is
   * then right (obtuse) exactly when one of the triangle's angles is right
   * (obtuse), and the area shown is Heron's for the sides as typed.
   */
  lemma {:induction false} DecideIsOrderIndependent(texts: seq<string>, parse: string -> Option<real>)
    requires |texts| == 3
    ensures Decide(texts, parse).Accepted? <==>
              AllReadable(texts, parse) &&
              var p := Parsed(texts, parse); StrictTriangle(p[0], p[1], p[2])
    ensures Decide(texts, parse).Accepted? ==>
              var p := Parsed(texts, parse);
              && (Decide(texts, parse).kind == Prostokatny <==> HasRightAngle(p[0], p[1], p[2]))
              && (Decide(texts, parse).kind == Rozwartokatny <==> HasObtuseAngle(p[0], p[1], p[2]))
              && Decide(texts, parse).radicand == HeronRadicand(p)
  {
    if AllReadable(texts, parse) {
      var p := Parsed(texts, parse);
      CollectSortsParsed(texts, parse);
      var v := SortAscending(p);
      SortThreeReorders(p);
      PropertiesIgnoreOrder(v, p);
      HeronRadicandIgnoresOrder(v, p);
      if CheckTriangle(v) {
        TypeIsLargestAngle(v);
      }
    }
  }

  /** A one-character text that is not white space is read by parsing it as it is. */
  lemma ReadSingle(ch: char, parse: string -> Option<real>)
    requires !IsWhitespace(ch)
    ensures ReadSide([ch], parse) == parse([ch])
  {
    assert TrimStart([ch]) == [ch];
  }

  /** Collecting three one-character texts that parse to sorted numbers gives those numbers. */
  lemma {:induction false} CollectDigits(x: char, y: char, z: char, parse: string -> Option<real>, a: real, b: real, c: real)
    requires !IsWhitespace(x) && !IsWhitespace(y) && !IsWhitespace(z)
    requires parse([x]) == Some(a) && parse([y]) == Some(b) && parse([z]) == Some(c)
    requires a <= b <= c
    ensures Collect([[x], [y], [z]], parse) == Some([a, b, c])
  {
    var texts, values := [[x], [y], [z]], [a, b, c];
    ReadSingle(x, parse);
    ReadSingle(y, parse);
    ReadSingle(z, parse);
    assert forall i :: 0 <= i < 3 ==> ReadSide(texts[i], parse) == Some(values[i]);
    ParsedIsUnique(texts, parse, values);
    assert Sorted(values);
    SortIdempotent(values);
  }

  /** The end-to-end example "3", "4", "5": a right triangle with radicand 36, so area 6. */
  lemma RightExample(parse: string -> Option<real>)
    requires parse("3") == Some(3.0) && parse("4") == Some(4.0) && parse("5") == Some(5.0)
    ensures Decide(["3", "4", "5"], parse) == Accepted(3.0, 4.0, 5.0, Prostokatny, 36.0)
  {
    CollectDigits('3', '4', '5', parse, 3.0, 4.0, 5.0);
    Examples();
  }

  /** The end-to-end example "1", "1", "5": rejected, citing the sorted sides 1, 1, 5. */
  lemma RejectedExample(parse: string -> Option<real>)
    requires parse("1") == Some(1.0) && parse("5") == Some(5.0)
    ensures Decide(["1", "1", "5"], parse) == Rejected(1.0, 1.0, 5.0)
  {
    CollectDigits('1', '1', '5', parse, 1.0, 1.0, 5.0);
  }

  /** The display element (`#display`): its children, in document order. */
  class Display {
    var children: seq<Node>

    constructor ()
      ensures children == []
    {
      children := [];
    }

    /** `display.removeChild(display.firstChild)`. */
    method RemoveFirstChild()
      requires children != []
      modifies this
      ensures children == old(children)[1..]
    {
      children := children[1..];
    }

    /** `display.append(node)` / `display.appendChild(node)`. */
    method Append(node: Node)
      modifies this
      ensures children == old(children) + [node]
    {
      children := children + [node];
    }

    /**
     * `clear_display`: removes the first child while there is one. Each pass
     * removes exactly one child, so the loop ends, and it ends with none.
     */
    method Clear()
      modifies this
      ensures children == []
    {
      while children != []
        decreases |children|
      {
        RemoveFirstChild();
      }
    }

    /**
     * `check_geometry`: clears the display, then appends the nodes for the
     * outcome of the submission, returning early after an error node.
     */
    method CheckGeometry(sides: seq<InputElement>, parse: string -> Option<real>)
      requires |sides| >= 3
      modifies this
      ensures children == Render(Decide(old(Texts(sides)), parse))
    {
      ghost var texts := Texts(sides);
      Clear();
      assert Texts(sides) == texts;
      var geometry := GetGeometrySides(sides, parse);
      if geometry.None? {
        Append(Node(Paragraph, ErrorClass, Text(NotNumbers)));
        return;
      }
      var values := geometry.value;
      if !CheckTriangle(values) {
        Append(Node(Paragraph, ErrorClass, Text(Impossible(values[0], values[1], values[2]))));
        return;
      }
      var message0 := Node(Paragraph, MessageClass, Text(Possible(values[0], values[1], values[2])));
      Append(message0);
      var t := GetTriangleType(values);
      var texified := Label(t);
      var image := Node(Image, ImageClass, Src(ImagePath(t)));
      Append(image);
      var message1 := Node(Paragraph, MessageClass, Text(TypeLabel(texified)));
      Append(message1);
      var field := HeronRadicand(values);
      var message2 := Node(Paragraph, MessageClass, Text(AreaIs(field)));
      Append(message2);
    }
  }
}
