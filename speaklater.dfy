/** The lazy string: a resolver plus the arguments captured when it was
    made. Every operation resolves the text afresh and applies the `str`
    operation to it; nothing is remembered between uses. */
module SpeakLater {
  import opened Wrappers
  import PyStrings

  /** `func` is the resolver and `args` the captured positional and keyword
      arguments. `Ctx` is the ambient state at the point of use (the active
      request and its locale), which the resolver reads implicitly. */
  datatype LazyString<!Ctx, !A> = LazyString(func: (Ctx, A) -> string, args: A)

  /** The error `%` raises on arguments that do not fit the format. */
  datatype TypeError = TypeError

  /** The error `__getattr__` raises. */
  datatype AttributeError = AttributeError(name: string)

  /** The argument of `ls[key]`: an integer index or a step-1 slice. */
  datatype Key = IndexKey(i: int) | SliceKey(start: Option<int>, stop: Option<int>)

  /** `str(ls)`: the resolver applied to the captured arguments, in the
      context of this use. */
  function Str<Ctx, A>(ls: LazyString<Ctx, A>, ctx: Ctx): string {
    ls.func(ctx, ls.args)
  }

  /** `repr(ls)`: the text quoted and marked with a leading `l`. */
  function Repr<Ctx, A>(ls: LazyString<Ctx, A>, ctx: Ctx): (r: string)
    ensures |r| == |Str(ls, ctx)| + 3
    ensures r[..2] == "l'" && r[|r| - 1] == '\'' && r[2..|r| - 1] == Str(ls, ctx)
  {
    "l'" + Str(ls, ctx) + "'"
  }

  /** Reads back the text a `repr` shows, if `r` has the `l'...'` form. */
  function Unquote(r: string): Option<string> {
    if |r| >= 3 && r[..2] == "l'" && r[|r| - 1] == '\'' then Some(r[2..|r| - 1]) else None
  }

  /** `repr` loses nothing: the resolved text can be read back from it. */
  lemma ReprRoundTrip<Ctx, A>(ls: LazyString<Ctx, A>, ctx: Ctx)
    ensures Unquote(Repr(ls, ctx)) == Some(Str(ls, ctx))
  {
  }

  /** `len(ls)`. */
  function Len<Ctx, A>(ls: LazyString<Ctx, A>, ctx: Ctx): (n: nat)
    ensures n == |Str(ls, ctx)|
  {
    |Str(ls, ctx)|
  }

  /** `ls[key]`; `None` is the `IndexError` of an index out of range. */
  function GetItem<Ctx, A>(ls: LazyString<Ctx, A>, key: Key, ctx: Ctx): (r: Option<string>)
    ensures key.IndexKey? ==> (r.Some? <==> 0 <= key.i + Len(ls, ctx) && key.i < Len(ls, ctx))
    ensures key.IndexKey? && r.Some? ==> r.value == [Str(ls, ctx)[PyStrings.Normalize(key.i, Len(ls, ctx))]]
    ensures key.SliceKey? ==> r == Some(PyStrings.Slice(Str(ls, ctx), key.start, key.stop))
  {
    match key
    case IndexKey(i) => PyStrings.Index(Str(ls, ctx), i)
    case SliceKey(start, stop) => Some(PyStrings.Slice(Str(ls, ctx), start, stop))
  }

  /** `iter(ls)`: the characters of the resolved text, one at a time. */
  function Iter<Ctx, A>(ls: LazyString<Ctx, A>, ctx: Ctx): (r: seq<string>)
    ensures |r| == Len(ls, ctx)
    ensures forall i :: 0 <= i < |r| ==> r[i] == [Str(ls, ctx)[i]]
    ensures PyStrings.Join(r) == Str(ls, ctx)
  {
    PyStrings.JoinChars(Str(ls, ctx));
    PyStrings.Chars(Str(ls, ctx))
  }

  /** `item in ls`: substring membership in the resolved text. */
  function Contains<Ctx, A>(ls: LazyString<Ctx, A>, item: string, ctx: Ctx): (b: bool)
    ensures b <==> exists i :: PyStrings.OccursAt(Str(ls, ctx), item, i)
  {
    PyStrings.Contains(Str(ls, ctx), item)
  }

  /** `ls + other`. */
  function Add<Ctx, A>(ls: LazyString<Ctx, A>, other: string, ctx: Ctx): (r: string)
    ensures |r| == Len(ls, ctx) + |other|
    ensures r[..Len(ls, ctx)] == Str(ls, ctx) && r[Len(ls, ctx)..] == other
  {
    Str(ls, ctx) + other
  }

  /** `other + ls`. */
  function RAdd<Ctx, A>(ls: LazyString<Ctx, A>, other: string, ctx: Ctx): (r: string)
    ensures |r| == |other| + Len(ls, ctx)
    ensures r[..|other|] == other && r[|other|..] == Str(ls, ctx)
  {
    other + Str(ls, ctx)
  }

  /** `ls * n`. */
  function Mul<Ctx, A>(ls: LazyString<Ctx, A>, n: int, ctx: Ctx): (r: string)
    ensures |r| == if n <= 0 then 0 else n * Len(ls, ctx)
    ensures r == PyStrings.Repeat(Str(ls, ctx), n)
  {
    PyStrings.Repeat(Str(ls, ctx), n)
  }

  /** `n * ls`. */
  function RMul<Ctx, A>(ls: LazyString<Ctx, A>, n: int, ctx: Ctx): (r: string)
    ensures r == PyStrings.Repeat(Str(ls, ctx), n)
  {
    Mul(ls, n, ctx)
  }

  /** Each copy in a repetition of a lazy string is its resolved text. */
  lemma {:induction false} MulCopies<Ctx, A>(ls: LazyString<Ctx, A>, n: int, ctx: Ctx, q: int)
    requires 0 <= q < n
    ensures (q + 1) * Len(ls, ctx) <= |Mul(ls, n, ctx)|
    ensures Mul(ls, n, ctx)[q * Len(ls, ctx)..(q + 1) * Len(ls, ctx)] == Str(ls, ctx)
  {
    var t, r := Str(ls, ctx), Mul(ls, n, ctx);
    if |t| > 0 {
      PyStrings.RepeatAt(t, n, q, |t| - 1);
      assert (q + 1) * |t| == q * |t| + |t|;
      forall j | 0 <= j < |t|
        ensures r[q * |t|..(q + 1) * |t|][j] == t[j]
      {
        PyStrings.RepeatAt(t, n, q, j);
      }
    } else {
      assert q * |t| == 0 && (q + 1) * |t| == 0;
    }
  }

  predicate Lt<Ctx, A>(ls: LazyString<Ctx, A>, other: string, ctx: Ctx) {
    PyStrings.Less(Str(ls, ctx), other)
  }

  predicate Le<Ctx, A>(ls: LazyString<Ctx, A>, other: string, ctx: Ctx) {
    PyStrings.Less(Str(ls, ctx), other) || Str(ls, ctx) == other
  }

  predicate Eq<Ctx, A>(ls: LazyString<Ctx, A>, other: string, ctx: Ctx) {
    Str(ls, ctx) == other
  }

  predicate Ne<Ctx, A>(ls: LazyString<Ctx, A>, other: string, ctx: Ctx) {
    Str(ls, ctx) != other
  }

  predicate Gt<Ctx, A>(ls: LazyString<Ctx, A>, other: string, ctx: Ctx) {
    PyStrings.Less(other, Str(ls, ctx))
  }

  predicate Ge<Ctx, A>(ls: LazyString<Ctx, A>, other: string, ctx: Ctx) {
    PyStrings.Less(other, Str(ls, ctx)) || Str(ls, ctx) == other
  }

  /** The six comparisons are those of a total order on the resolved text:
      exactly one of `<`, `==`, `>` holds, `<=` and `>` are complements,
      `>=` and `<` are complements, and so are `==` and `!=`. */
  lemma {:induction false} ComparisonsAgree<Ctx, A>(ls: LazyString<Ctx, A>, other: string, ctx: Ctx)
    ensures Eq(ls, other, ctx) <==> !Ne(ls, other, ctx)
    ensures Le(ls, other, ctx) <==> !Gt(ls, other, ctx)
    ensures Ge(ls, other, ctx) <==> !Lt(ls, other, ctx)
    ensures Lt(ls, other, ctx) || Eq(ls, other, ctx) || Gt(ls, other, ctx)
    ensures !(Lt(ls, other, ctx) && Gt(ls, other, ctx))
    ensures Eq(ls, other, ctx) ==> !Lt(ls, other, ctx) && !Gt(ls, other, ctx)
  {
    PyStrings.LessTrichotomy(Str(ls, ctx), other);
  }

  /** `ls.__html__()`: the resolved text, for templates that honour it. */
  function Html<Ctx, A>(ls: LazyString<Ctx, A>, ctx: Ctx): (r: string)
    ensures r == Str(ls, ctx)
  {
    Str(ls, ctx)
  }

  /** `hash(ls)`, given Python's string hash. */
  function Hash<Ctx, A>(ls: LazyString<Ctx, A>, ctx: Ctx, hash: string -> int): (h: int)
    ensures h == hash(Str(ls, ctx))
  {
    hash(Str(ls, ctx))
  }

  /** Lazy strings that compare equal hash equally, whatever resolvers and
      contexts produced their text. */
  lemma EqualTextEqualHash<C1, A1, C2, A2>(a: LazyString<C1, A1>, ca: C1, b: LazyString<C2, A2>, cb: C2, hash: string -> int)
    requires Eq(a, Str(b, cb), ca)
    ensures Hash(a, ca, hash) == Hash(b, cb, hash)
  {
  }

  /** `ls % other`, given Python's `%` formatting of a string; `format`
      answers `None` where `%` raises, as it does when the arguments do not
      match the conversion specifiers. */
  function Mod<Ctx, A, O>(ls: LazyString<Ctx, A>, other: O, ctx: Ctx, format: (string, O) -> Option<string>): (r: Result<string, TypeError>)
    ensures r.Success? <==> format(Str(ls, ctx), other).Some?
    ensures r.Success? ==> r.value == format(Str(ls, ctx), other).value
    ensures r.Failure? ==> r.error == TypeError
  {
    match format(Str(ls, ctx), other)
    case Some(t) => Success(t)
    case None => Failure(TypeError)
  }

  /** The method call `ls.__rmod__(other)`: it concatenates, exactly as
      `other + ls` does, and formats nothing. Python reaches it for `o % ls`
      only when the left operand's own `%` gives up, which a string never
      does. */
  function RMod<Ctx, A>(ls: LazyString<Ctx, A>, other: string, ctx: Ctx): (r: string)
    ensures r == RAdd(ls, other, ctx)
  {
    other + Str(ls, ctx)
  }

  /** `getattr(ls, attr)` for a name the lazy string does not define itself:
      `__setstate__` is always missing; any other name is looked up on the
      resolved text through `strAttr`, the attribute table of Python's `str`. */
  function GetAttr<Ctx, A, V>(ls: LazyString<Ctx, A>, attr: string, ctx: Ctx, strAttr: (string, string) -> Option<V>): (r: Result<V, AttributeError>)
    ensures attr == "__setstate__" ==> r == Failure(AttributeError(attr))
    ensures attr != "__setstate__" ==> (r.Success? <==> strAttr(Str(ls, ctx), attr).Some?)
    ensures r.Success? ==> r.value == strAttr(Str(ls, ctx), attr).value
    ensures r.Failure? ==> r.error == AttributeError(attr)
  {
    if attr == "__setstate__" then Failure(AttributeError(attr))
    else
      match strAttr(Str(ls, ctx), attr)
      case Some(v) => Success(v)
      case None => Failure(AttributeError(attr))
  }

  /** Every operation sees the lazy string only through its resolved text:
      two lazy strings that resolve to the same text, in whatever contexts,
      are indistinguishable. */
  lemma SameTextSameBehaviour<C1, A1, C2, A2, O, V>(a: LazyString<C1, A1>, ca: C1, b: LazyString<C2, A2>, cb: C2)
    requires Str(a, ca) == Str(b, cb)
    ensures Len(a, ca) == Len(b, cb) && Repr(a, ca) == Repr(b, cb) && Html(a, ca) == Html(b, cb)
    ensures Iter(a, ca) == Iter(b, cb)
    ensures forall k :: GetItem(a, k, ca) == GetItem(b, k, cb)
    ensures forall o :: Contains(a, o, ca) == Contains(b, o, cb)
    ensures forall o :: Add(a, o, ca) == Add(b, o, cb) && RAdd(a, o, ca) == RAdd(b, o, cb)
    ensures forall n :: Mul(a, n, ca) == Mul(b, n, cb) && RMul(a, n, ca) == RMul(b, n, cb)
    ensures forall o :: Lt(a, o, ca) == Lt(b, o, cb) && Le(a, o, ca) == Le(b, o, cb)
    ensures forall o :: Eq(a, o, ca) == Eq(b, o, cb) && Ne(a, o, ca) == Ne(b, o, cb)
    ensures forall o :: Gt(a, o, ca) == Gt(b, o, cb) && Ge(a, o, ca) == Ge(b, o, cb)
    ensures forall hash: string -> int :: Hash(a, ca, hash) == Hash(b, cb, hash)
    ensures forall o: O, format: (string, O) -> Option<string> :: Mod(a, o, ca, format) == Mod(b, o, cb, format)
    ensures forall o :: RMod(a, o, ca) == RMod(b, o, cb)
    ensures forall attr, strAttr: (string, string) -> Option<V> :: GetAttr(a, attr, ca, strAttr) == GetAttr(b, attr, cb, strAttr)
  {
  }

  /** A resolver in the manner of `lazy_gettext("Yes")`, with the active
      locale as its context and a German catalog that translates one word. */
  function GermanCatalog(locale: string, message: string): string {
    if locale == "de_DE" && message == "Yes" then "Ja" else message
  }

  /** One lazy string, made once, reads differently in two requests with
      different locales: the resolver is called at each use. */
  lemma ResolvedAtEachUse()
    ensures var yes := LazyString(GermanCatalog, "Yes");
            Str(yes, "de_DE") == "Ja" && Str(yes, "en_US") == "Yes"
  {
  }
}
