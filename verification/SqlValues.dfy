/** The cells SQLite hands to the comparison: which of Python's values have sort keys
    (`str(x) + str(type(x))`, examples/rl_nl2sql/sql_eval.py:76) the quick reject can trust? */
module SqlValues {
  import opened SqlEval
  import Text

  /** A fetched value. A float carries the text `str` prints for it. */
  datatype SqlValue = Null | Integer(n: int) | Float(r: real, repr: string) | Str(s: string)

  /** What Python's `==` looks at: an int equals the float of the same number. */
  datatype PyValue = NoneVal | Number(r: real) | Chars(s: string)

  function Value(v: SqlValue): PyValue
  {
    match v
    case Null => NoneVal
    case Integer(n) => Number(n as real)
    case Float(r, _) => Number(r)
    case Str(s) => Chars(s)
  }

  function TypeText(v: SqlValue): string
  {
    match v
    case Null => "<class 'NoneType'>"
    case Integer(_) => "<class 'int'>"
    case Float(_, _) => "<class 'float'>"
    case Str(_) => "<class 'str'>"
  }

  function ValueText(v: SqlValue): string
  {
    match v
    case Null => "None"
    case Integer(n) => Text.IntText(n)
    case Float(_, repr) => repr
    case Str(s) => s
  }

  function CellOf(v: SqlValue): Cell<PyValue>
  {
    Cell(Value(v), ValueText(v) + TypeText(v))
  }

  /** The value and the sort key of each kind of cell. */
  lemma CellsMean(n: int, r: real, repr: string, s: string)
    ensures CellOf(Null) == Cell(NoneVal, "None<class 'NoneType'>")
    ensures CellOf(Integer(n)) == Cell(Number(n as real), Text.IntText(n) + "<class 'int'>")
    ensures CellOf(Float(r, repr)) == Cell(Number(r), repr + "<class 'float'>")
    ensures CellOf(Str(s)) == Cell(Chars(s), s + "<class 'str'>")
  {
    assert "None" + "<class 'NoneType'>" == "None<class 'NoneType'>";
  }

  ghost function CellsWithoutFloats(): iset<Cell<PyValue>>
  {
    iset v: SqlValue | !v.Float? :: CellOf(v)
  }

  /** Apart from floats, the key determines the value: the type can be read off its end and the
      value off what precedes it. */
  lemma KeyInjective(u: SqlValue, v: SqlValue)
    requires !u.Float? && !v.Float? && CellOf(u).key == CellOf(v).key
    ensures u == v
  {
    var k, l := CellOf(u).key, CellOf(v).key;
    assert k[|k| - 3] == TypeText(u)[|TypeText(u)| - 3];
    assert l[|l| - 3] == TypeText(v)[|TypeText(v)| - 3];
    assert TypeText(u) == TypeText(v);
    assert k[..|k| - |TypeText(u)|] == ValueText(u);
    assert l[..|l| - |TypeText(u)|] == ValueText(v);
    if u.Integer? {
      Text.IntTextInjective(u.n, v.n);
    }
  }

  lemma CellsDistinguished(x: Cell<PyValue>, y: Cell<PyValue>)
    requires x in CellsWithoutFloats() && y in CellsWithoutFloats()
    ensures x.val == y.val <==> x == y
    ensures x.key == y.key <==> x == y
  {
    var u: SqlValue :| !u.Float? && x == CellOf(u);
    var v: SqlValue :| !v.Float? && y == CellOf(v);
    if x.val == y.val {
      assert u == v;
    }
    if x.key == y.key {
      KeyInjective(u, v);
    }
  }

  lemma KeysDiffer(x: Cell<PyValue>, z: Cell<PyValue>)
    requires x in CellsWithoutFloats() && z in CellsWithoutFloats() && x.val != z.val && KeyLE(x, z)
    ensures KeyLT(x, z)
  {
    CellsDistinguished(x, z);
    if KeyLE(z, x) {
      Text.LexAntisymmetric(x.key, z.key);
    }
  }

  lemma CellsOrdered(x: Cell<PyValue>, y: Cell<PyValue>, z: Cell<PyValue>, w: Cell<PyValue>)
    requires x in CellsWithoutFloats() && y in CellsWithoutFloats() && z in CellsWithoutFloats()
        && w in CellsWithoutFloats()
    requires x.val == y.val && z.val == w.val && x.val != z.val && KeyLE(x, z)
    ensures KeyLT(y, w)
  {
    CellsDistinguished(x, y);
    CellsDistinguished(z, w);
    KeysDiffer(x, z);
  }

  lemma WithoutFloatsOrdered()
    ensures KeysOrderValues(CellsWithoutFloats())
  {
    var cells := CellsWithoutFloats();
    forall x, y, z, w | x in cells && y in cells && z in cells && w in cells
      ensures x.val == y.val && z.val == w.val && x.val != z.val && KeyLE(x, z) ==> KeyLT(y, w)
    {
      if x.val == y.val && z.val == w.val && x.val != z.val && KeyLE(x, z) {
        CellsOrdered(x, y, z, w);
      }
    }
  }

  /** On results made of NULLs, integers and text the comparison is exact. */
  lemma ExactWithoutFloats(orderMatters: bool)
    ensures ExactOver(CellsWithoutFloats(), orderMatters)
  {
    WithoutFloatsOrdered();
    ExactIffKeysOrderValues(CellsWithoutFloats(), orderMatters);
  }

  const ONE := CellOf(Integer(1))
  const ONE_FLOAT := CellOf(Float(1.0, "1.0"))
  const ONE_AND_A_HALF := CellOf(Float(1.5, "1.5"))

  /** With floats it is not: `[(1.0, 1.5)]` and `[(1.5, 1)]` are equal up to swapping the columns,
      but `1` sorts after `1.5` while `1.0` sorts before it, so the quick reject drops the match. */
  lemma FloatsLoseMatch(orderMatters: bool)
    ensures Equivalent(Vals([[ONE_FLOAT, ONE_AND_A_HALF]]), Vals([[ONE_AND_A_HALF, ONE]]), orderMatters)
    ensures !Verdict([[ONE_FLOAT, ONE_AND_A_HALF]], [[ONE_AND_A_HALF, ONE]], orderMatters)
  {
    FloatKeys();
    IntegerKey();
    LostMatch(ONE_FLOAT, ONE, ONE_AND_A_HALF, ONE_AND_A_HALF, orderMatters);
  }

  /** Texts that agree up to a character compare by the next one. */
  lemma NextCharacter(p: string, a: string, b: string)
    requires a != "" && b != "" && a[0] < b[0]
    ensures Text.LexLE(p + a, p + b)
  {
    Text.LexCommonPrefix(p, a, b);
  }

  lemma FloatKeys()
    ensures KeyLE(ONE_FLOAT, ONE_AND_A_HALF)
  {
    var f := TypeText(Float(1.0, "1.0"));
    NextCharacter("1.", "0" + f, "5" + f);
    assert "1." + ("0" + f) == "1.0" + f && "1." + ("5" + f) == "1.5" + f;
  }

  lemma IntegerKey()
    ensures KeyLE(ONE_AND_A_HALF, ONE)
  {
    var f, i := TypeText(Float(1.5, "1.5")), TypeText(Integer(1));
    OneText();
    NextCharacter("1", ".5" + f, i);
    assert "1" + (".5" + f) == "1.5" + f;
  }

  lemma OneText()
    ensures ValueText(Integer(1)) == "1"
  {
    assert Text.Decimal(1) == [Text.Digit(1)];
  }
}
