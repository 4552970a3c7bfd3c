/** The Borsh encoding of a proof and its five era layouts. */
module Wire {
  import opened Hashing
  import opened Words
  import opened Wrappers
  import opened Records
  import Rewalk

  // ---- codecs ----

  /** An encoder, a prefix decoder, and the values the encoder does not refuse. */
  datatype Codec<!T> = Codec(valid: T -> bool, enc: T -> seq<Byte>, dec: seq<Byte> -> Option<(T, seq<Byte>)>)

  /** Decoding an encoding followed by anything gives the value and leaves the rest, and nothing else
      decodes. */
  ghost predicate Sound<T(!new)>(c: Codec<T>) {
    && (forall x: T, rest: seq<Byte> :: c.valid(x) ==> Returns(c, x, rest))
    && forall s: seq<Byte> :: Tight(c, s)
  }

  ghost predicate Returns<T>(c: Codec<T>, x: T, rest: seq<Byte>) {
    c.dec(c.enc(x) + rest) == Some((x, rest))
  }

  /** Bytes that decode start with the encoding of a valid value. */
  predicate Tight<T>(c: Codec<T>, s: seq<Byte>) {
    match c.dec(s)
    case None => true
    case Some((x, rest)) => c.valid(x) && s == c.enc(x) + rest
  }

  /** `from_slice`: decode and consume everything. */
  function FromSlice<T>(c: Codec<T>, bytes: seq<Byte>): Option<T> {
    match c.dec(bytes)
    case Some((x, rest)) => if rest == [] then Some(x) else None
    case None => None
  }

  lemma FromSliceBack<T(!new)>(c: Codec<T>, x: T)
    requires Sound(c) && c.valid(x)
    ensures FromSlice(c, c.enc(x)) == Some(x)
  {
    assert Returns(c, x, []);
    assert c.enc(x) + [] == c.enc(x);
  }

  lemma FromSliceTight<T(!new)>(c: Codec<T>, bytes: seq<Byte>)
    requires Sound(c) && FromSlice(c, bytes).Some?
    ensures c.valid(FromSlice(c, bytes).value) && bytes == c.enc(FromSlice(c, bytes).value)
  {
    assert Tight(c, bytes);
    var x := FromSlice(c, bytes).value;
    assert c.enc(x) + [] == c.enc(x);
  }

  // ---- fixed-width fields ----

  /** `k` bytes of a number, least significant first. */
  function TakeLe(bytes: seq<Byte>, k: nat): Option<(nat, seq<Byte>)> {
    if |bytes| < k then None else Some((FromLe(bytes[..k]), bytes[k..]))
  }

  lemma TakeLeBack(n: nat, k: nat, rest: seq<Byte>)
    requires n < Digits.Power(256, k)
    ensures TakeLe(ToLe(n, k) + rest, k) == Some((n, rest))
  {
    hide FromLe, ToLe;
    FromLeOfToLe(n, k);
    assert (ToLe(n, k) + rest)[..k] == ToLe(n, k) && (ToLe(n, k) + rest)[k..] == rest;
  }

  function U8(): Codec<Byte> {
    Codec((b: Byte) => true, (b: Byte) => [b],
          (s: seq<Byte>) => if s == [] then None else Some((s[0], s[1..])))
  }

  lemma U8Sound()
    ensures Sound(U8())
  {
    forall b: Byte, rest: seq<Byte>
      ensures Returns(U8(), b, rest)
    {
      assert ([b] + rest)[0] == b && ([b] + rest)[1..] == rest;
    }
    forall s: seq<Byte>
      ensures Tight(U8(), s)
    {
      assert s != [] ==> s == [s[0]] + s[1..];
    }
  }

  function DecU64(s: seq<Byte>): Option<(U64, seq<Byte>)> {
    if |s| < 8 then None else Some((ReadU64(s, 0), s[8..]))
  }

  function Word(): Codec<U64> {
    Codec((w: U64) => true, (w: U64) => ToLe(w, 8), DecU64)
  }

  lemma WordSound()
    ensures Sound(Word())
  {
    hide ToLe, FromLe;
    forall w: U64, rest: seq<Byte>
      ensures Returns(Word(), w, rest)
    {
      WordBytes();
      TakeLeBack(w, 8, rest);
      assert (ToLe(w, 8) + rest)[0..8] == (ToLe(w, 8) + rest)[..8];
    }
    forall s: seq<Byte>
      ensures Tight(Word(), s)
    {
      if |s| >= 8 {
        assert s[0..8] == s[..8] && s == s[..8] + s[8..];
        ToLeOfFromLe(s[..8]);
      }
    }
  }

  function Dec32(s: seq<Byte>): Option<(Bytes32, seq<Byte>)> {
    if |s| < 32 then None else Some((s[..32], s[32..]))
  }

  function Array32(): Codec<Bytes32> {
    Codec((b: Bytes32) => true, (b: Bytes32) => b, Dec32)
  }

  lemma Array32Sound()
    ensures Sound(Array32())
  {
    forall b: Bytes32, rest: seq<Byte>
      ensures Returns(Array32(), b, rest)
    {
      assert (b + rest)[..32] == b && (b + rest)[32..] == rest;
    }
    forall s: seq<Byte>
      ensures Tight(Array32(), s)
    {
      assert |s| >= 32 ==> s == s[..32] + s[32..];
    }
  }

  // ---- combinators ----

  /** A codec through an invertible view. */
  function Via<S, T>(c: Codec<S>, to: T -> S, from: S -> T): Codec<T> {
    Codec((x: T) => c.valid(to(x)), (x: T) => c.enc(to(x)),
          (s: seq<Byte>) => match c.dec(s) case Some((y, rest)) => Some((from(y), rest)) case None => None)
  }

  lemma ViaSound<S(!new), T(!new)>(c: Codec<S>, to: T -> S, from: S -> T)
    requires Sound(c) && (forall x: T :: from(to(x)) == x) && forall y: S :: to(from(y)) == y
    ensures Sound(Via(c, to, from))
  {
    forall x: T, rest: seq<Byte> | c.valid(to(x))
      ensures Returns(Via(c, to, from), x, rest)
    {
      assert Returns(c, to(x), rest);
    }
    forall s: seq<Byte>
      ensures Tight(Via(c, to, from), s)
    {
      assert Tight(c, s);
    }
  }

  function DecPair<A, B>(a: Codec<A>, b: Codec<B>, s: seq<Byte>): Option<((A, B), seq<Byte>)> {
    match a.dec(s)
    case None => None
    case Some((x, rest)) =>
      match b.dec(rest)
      case None => None
      case Some((y, rest')) => Some(((x, y), rest'))
  }

  /** One field after another. */
  function Pair<A, B>(a: Codec<A>, b: Codec<B>): Codec<(A, B)> {
    Codec((x: (A, B)) => a.valid(x.0) && b.valid(x.1), (x: (A, B)) => a.enc(x.0) + b.enc(x.1),
          (s: seq<Byte>) => DecPair(a, b, s))
  }

  lemma PairSound<A(!new), B(!new)>(a: Codec<A>, b: Codec<B>)
    requires Sound(a) && Sound(b)
    ensures Sound(Pair(a, b))
  {
    forall x: (A, B), rest: seq<Byte> | a.valid(x.0) && b.valid(x.1)
      ensures Returns(Pair(a, b), x, rest)
    {
      assert Returns(a, x.0, b.enc(x.1) + rest) && Returns(b, x.1, rest);
      assert a.enc(x.0) + b.enc(x.1) + rest == a.enc(x.0) + (b.enc(x.1) + rest);
    }
    forall s: seq<Byte>
      ensures Tight(Pair(a, b), s)
    {
      PairTight(a, b, s);
    }
  }

  lemma PairTight<A(!new), B(!new)>(a: Codec<A>, b: Codec<B>, s: seq<Byte>)
    requires Sound(a) && Sound(b)
    ensures Tight(Pair(a, b), s)
  {
    assert Tight(a, s);
    if a.dec(s).Some? {
      var (x, rest) := a.dec(s).value;
      assert Tight(b, rest);
      if b.dec(rest).Some? {
        var (y, rest') := b.dec(rest).value;
        assert a.enc(x) + b.enc(y) + rest' == a.enc(x) + (b.enc(y) + rest');
      }
    }
  }

  function DecOption<T>(c: Codec<T>, s: seq<Byte>): Option<(Option<T>, seq<Byte>)> {
    if s == [] then None
    else if s[0] == 0 then Some((None, s[1..]))
    else if s[0] == 1 then
      match c.dec(s[1..])
      case Some((x, rest)) => Some((Some(x), rest))
      case None => None
    else None
  }

  /** A tag byte, then the value if there is one. */
  function Opt<T>(c: Codec<T>): Codec<Option<T>> {
    Codec((x: Option<T>) => x.Some? ==> c.valid(x.value),
          (x: Option<T>) => if x.Some? then [1] + c.enc(x.value) else [0],
          (s: seq<Byte>) => DecOption(c, s))
  }

  lemma OptSound<T(!new)>(c: Codec<T>)
    requires Sound(c)
    ensures Sound(Opt(c))
  {
    forall x: Option<T>, rest: seq<Byte> | x.Some? ==> c.valid(x.value)
      ensures Returns(Opt(c), x, rest)
    {
      if x.Some? {
        assert Returns(c, x.value, rest);
        assert ([1] + c.enc(x.value) + rest)[1..] == c.enc(x.value) + rest;
      } else {
        assert ([0] + rest)[1..] == rest;
      }
    }
    forall s: seq<Byte>
      ensures Tight(Opt(c), s)
    {
      if s != [] {
        assert Tight(c, s[1..]);
        assert s == [s[0]] + s[1..];
        if s[0] == 1 && c.dec(s[1..]).Some? {
          var (x, rest) := c.dec(s[1..]).value;
          assert [1] + c.enc(x) + rest == [1] + (c.enc(x) + rest);
        }
      }
    }
  }

  function EncItems<T>(c: Codec<T>, xs: seq<T>): seq<Byte> {
    if xs == [] then [] else c.enc(xs[0]) + EncItems(c, xs[1..])
  }

  function DecItems<T>(c: Codec<T>, n: nat, s: seq<Byte>): Option<(seq<T>, seq<Byte>)> {
    if n == 0 then Some(([], s))
    else
      match c.dec(s)
      case None => None
      case Some((x, rest)) =>
        match DecItems(c, n - 1, rest)
        case None => None
        case Some((xs, rest')) => Some(([x] + xs, rest'))
  }

  function DecVec<T>(c: Codec<T>, s: seq<Byte>): Option<(seq<T>, seq<Byte>)> {
    match TakeLe(s, 4)
    case None => None
    case Some((n, rest)) => DecItems(c, n, rest)
  }

  predicate AllValid<T>(c: Codec<T>, xs: seq<T>) {
    forall i :: 0 <= i < |xs| ==> c.valid(xs[i])
  }

  /** A 32-bit count, then the items. */
  function Vec<T>(c: Codec<T>): Codec<seq<T>> {
    Codec((xs: seq<T>) => |xs| < TWO32 && AllValid(c, xs),
          (xs: seq<T>) => ToLe(|xs|, 4) + EncItems(c, xs),
          (s: seq<Byte>) => DecVec(c, s))
  }

  lemma {:induction false} ItemsBack<T(!new)>(c: Codec<T>, xs: seq<T>, rest: seq<Byte>)
    requires Sound(c) && AllValid(c, xs)
    ensures DecItems(c, |xs|, EncItems(c, xs) + rest) == Some((xs, rest))
  {
    if xs == [] {
      assert EncItems(c, xs) + rest == rest;
    } else {
      ItemsBack(c, xs[1..], rest);
      assert c.valid(xs[0]);
      assert Returns(c, xs[0], EncItems(c, xs[1..]) + rest);
      assert EncItems(c, xs) + rest == c.enc(xs[0]) + (EncItems(c, xs[1..]) + rest);
      assert [xs[0]] + xs[1..] == xs;
    }
  }

  /** Items that decode are as many as asked for, valid, and their encodings in a row. */
  lemma {:induction false} ItemsTight<T(!new)>(c: Codec<T>, n: nat, s: seq<Byte>)
    requires Sound(c) && DecItems(c, n, s).Some?
    ensures var (xs, rest) := DecItems(c, n, s).value;
      |xs| == n && AllValid(c, xs) && s == EncItems(c, xs) + rest
  {
    if n > 0 {
      assert Tight(c, s);
      var (x, rest) := c.dec(s).value;
      ItemsTight(c, n - 1, rest);
      var (xs, rest') := DecItems(c, n - 1, rest).value;
      assert ([x] + xs)[1..] == xs;
      assert c.enc(x) + EncItems(c, xs) + rest' == c.enc(x) + (EncItems(c, xs) + rest');
    }
  }

  lemma VecTight<T(!new)>(c: Codec<T>, s: seq<Byte>)
    requires Sound(c)
    ensures Tight(Vec(c), s)
  {
    hide ToLe, FromLe, EncItems, DecItems, AllValid;
    if |s| >= 4 {
      WordBytes();
      ToLeOfFromLe(s[..4]);
      assert s == s[..4] + s[4..];
      var n := FromLe(s[..4]);
      if DecItems(c, n, s[4..]).Some? {
        ItemsTight(c, n, s[4..]);
        var (xs, rest) := DecItems(c, n, s[4..]).value;
        assert s[..4] + EncItems(c, xs) + rest == s[..4] + (EncItems(c, xs) + rest);
      }
    }
  }

  lemma VecSound<T(!new)>(c: Codec<T>)
    requires Sound(c)
    ensures Sound(Vec(c))
  {
    hide ToLe, TakeLe;
    forall xs: seq<T>, rest: seq<Byte> | |xs| < TWO32 && AllValid(c, xs)
      ensures Returns(Vec(c), xs, rest)
    {
      WordBytes();
      TakeLeBack(|xs|, 4, EncItems(c, xs) + rest);
      ItemsBack(c, xs, rest);
      assert ToLe(|xs|, 4) + EncItems(c, xs) + rest == ToLe(|xs|, 4) + (EncItems(c, xs) + rest);
    }
    forall s: seq<Byte>
      ensures Tight(Vec(c), s)
    {
      VecTight(c, s);
    }
  }

  // ---- layouts that grow by one option ----

  lemma OptFailsAtEnd<T>(c: Codec<T>)
    ensures Opt(c).dec([]) == None
  {}

  /** The bytes of a layout are refused by the layout one option longer... */
  lemma LongerFails<A(!new), T>(a: Codec<A>, c: Codec<T>, x: A)
    requires Sound(a) && a.valid(x)
    ensures Pair(a, Opt(c)).dec(a.enc(x)) == None
  {
    assert Returns(a, x, []);
    assert a.enc(x) + [] == a.enc(x);
    OptFailsAtEnd(c);
  }

  /** ... and so by every layout longer still. */
  lemma FailurePropagates<A, T>(a: Codec<A>, c: Codec<T>, s: seq<Byte>)
    requires a.dec(s) == None
    ensures Pair(a, c).dec(s) == None
  {}

  // ---- the records, field by field ----

  function Node(): Codec<Digest> {
    Via(Array32(), (d: Digest) => d.bytes, (b: Bytes32) => Digest(b))
  }

  function Nodes(): Codec<seq<Digest>> {
    Vec(Node())
  }

  function Raw(): Codec<seq<Byte>> {
    Vec(U8())
  }

  lemma NodesSound()
    ensures Sound(Node()) && Sound(Nodes())
  {
    hide Via, Vec, Array32, Sound;
    Array32Sound();
    assert Sound(Node()) by { ViaSound(Array32(), (d: Digest) => d.bytes, (b: Bytes32) => Digest(b)); }
    VecSound(Node());
  }

  lemma RawSound()
    ensures Sound(Raw())
  {
    hide Vec, U8, Sound;
    U8Sound();
    VecSound(U8());
  }

  type OpeningFields = (U64, (Bytes32, (seq<Digest>, (seq<Digest>, seq<Digest>))))

  function OpeningTo(o: PomOpening): OpeningFields {
    (o.stateBefore, (o.chunk, (o.weightPath, (o.tracePathBefore, o.tracePathAfter))))
  }

  function OpeningFrom(f: OpeningFields): PomOpening {
    PomOpening(f.0, f.1.0, f.1.1.0, f.1.1.1.0, f.1.1.1.1)
  }

  function OpeningC(): Codec<PomOpening> {
    Via(Pair(Word(), Pair(Array32(), Pair(Nodes(), Pair(Nodes(), Nodes())))), OpeningTo, OpeningFrom)
  }

  lemma OpeningSound()
    ensures Sound(OpeningC())
  {
    hide Via, Pair, Word, Array32, Nodes, Sound;
    WordSound();
    Array32Sound();
    NodesSound();
    PairSound(Nodes(), Nodes());
    PairSound(Nodes(), Pair(Nodes(), Nodes()));
    PairSound(Array32(), Pair(Nodes(), Pair(Nodes(), Nodes())));
    PairSound(Word(), Pair(Array32(), Pair(Nodes(), Pair(Nodes(), Nodes()))));
    ViaSound(Pair(Word(), Pair(Array32(), Pair(Nodes(), Pair(Nodes(), Nodes())))), OpeningTo, OpeningFrom);
  }

  function StepTo(s: PomStep): (Bytes32, seq<Digest>) {
    (s.chunk, s.weightPath)
  }

  function StepFrom(f: (Bytes32, seq<Digest>)): PomStep {
    PomStep(f.0, f.1)
  }

  function StepC(): Codec<PomStep> {
    Via(Pair(Array32(), Nodes()), StepTo, StepFrom)
  }

  lemma StepSound()
    ensures Sound(StepC())
  {
    hide Via, Pair, Array32, Nodes, Sound;
    Array32Sound();
    NodesSound();
    PairSound(Array32(), Nodes());
    ViaSound(Pair(Array32(), Nodes()), StepTo, StepFrom);
  }

  type CheckFields = (seq<Byte>, (seq<Digest>, (seq<Byte>, (seq<Digest>, (seq<Byte>, (seq<Digest>, seq<Digest>))))))

  function CheckTo(o: PomV3Opening): CheckFields {
    (o.rowBefore, (o.pathBefore, (o.rowAfter, (o.pathAfter, (o.tileCol, (o.colPath, o.snippetPath))))))
  }

  function CheckFrom(f: CheckFields): PomV3Opening {
    PomV3Opening(f.0, f.1.0, f.1.1.0, f.1.1.1.0, f.1.1.1.1.0, f.1.1.1.1.1.0, f.1.1.1.1.1.1)
  }

  function CheckTail(): Codec<(seq<Digest>, (seq<Byte>, (seq<Digest>, seq<Digest>)))> {
    Pair(Nodes(), Pair(Raw(), Pair(Nodes(), Nodes())))
  }

  function CheckC(): Codec<PomV3Opening> {
    Via(Pair(Raw(), Pair(Nodes(), Pair(Raw(), CheckTail()))), CheckTo, CheckFrom)
  }

  lemma CheckSound()
    ensures Sound(CheckC())
  {
    hide Via, Pair, Raw, Nodes, Sound;
    RawSound();
    NodesSound();
    PairSound(Nodes(), Nodes());
    PairSound(Raw(), Pair(Nodes(), Nodes()));
    PairSound(Nodes(), Pair(Raw(), Pair(Nodes(), Nodes())));
    PairSound(Raw(), CheckTail());
    PairSound(Nodes(), Pair(Raw(), CheckTail()));
    PairSound(Raw(), Pair(Nodes(), Pair(Raw(), CheckTail())));
    ViaSound(Pair(Raw(), Pair(Nodes(), Pair(Raw(), CheckTail()))), CheckTo, CheckFrom);
  }

  type V3Fields = (Byte, (seq<Digest>, (seq<Bytes32>, seq<PomV3Opening>)))

  function V3To(v: PomProofV3): V3Fields {
    (v.tier, (v.roots, (v.snippets, v.checks)))
  }

  function V3From(f: V3Fields): PomProofV3 {
    PomProofV3(f.0, f.1.0, f.1.1.0, f.1.1.1)
  }

  function V3C(): Codec<PomProofV3> {
    Via(Pair(U8(), Pair(Nodes(), Pair(Vec(Array32()), Vec(CheckC())))), V3To, V3From)
  }

  lemma V3Sound()
    ensures Sound(V3C())
  {
    hide Via, Pair, U8, Nodes, Vec, Array32, CheckC, Sound;
    U8Sound();
    NodesSound();
    Array32Sound();
    CheckSound();
    VecSound(Array32());
    VecSound(CheckC());
    PairSound(Vec(Array32()), Vec(CheckC()));
    PairSound(Nodes(), Pair(Vec(Array32()), Vec(CheckC())));
    PairSound(U8(), Pair(Nodes(), Pair(Vec(Array32()), Vec(CheckC()))));
    ViaSound(Pair(U8(), Pair(Nodes(), Pair(Vec(Array32()), Vec(CheckC())))), V3To, V3From);
  }

  type V4Fields = (Byte, (seq<seq<Byte>>, seq<seq<Digest>>))

  function V4To(v: Rewalk.Proof): V4Fields {
    (v.tier, (v.tiles, v.paths))
  }

  function V4From(f: V4Fields): Rewalk.Proof {
    Rewalk.Proof(f.0, f.1.0, f.1.1)
  }

  function V4C(): Codec<Rewalk.Proof> {
    Via(Pair(U8(), Pair(Vec(Raw()), Vec(Nodes()))), V4To, V4From)
  }

  lemma V4Sound()
    ensures Sound(V4C())
  {
    hide Via, Pair, U8, Raw, Nodes, Vec, Sound;
    U8Sound();
    RawSound();
    NodesSound();
    VecSound(Raw());
    VecSound(Nodes());
    PairSound(Vec(Raw()), Vec(Nodes()));
    PairSound(U8(), Pair(Vec(Raw()), Vec(Nodes())));
    ViaSound(Pair(U8(), Pair(Vec(Raw()), Vec(Nodes()))), V4To, V4From);
  }

  // ---- the five layouts ----

  /** The seven fields every era shares: the pre-H4 layout. */
  datatype Base = Base(tier: Byte, traceRoot: Digest, powValue: Bytes32, finalState: U64,
                       initialTracePath: seq<Digest>, finalTracePath: seq<Digest>, openings: seq<PomOpening>)

  type BaseFields = ((Byte, (Digest, (Bytes32, U64))), (seq<Digest>, (seq<Digest>, seq<PomOpening>)))

  function BaseTo(b: Base): BaseFields {
    ((b.tier, (b.traceRoot, (b.powValue, b.finalState))), (b.initialTracePath, (b.finalTracePath, b.openings)))
  }

  function BaseFrom(f: BaseFields): Base {
    Base(f.0.0, f.0.1.0, f.0.1.1.0, f.0.1.1.1, f.1.0, f.1.1.0, f.1.1.1)
  }

  function Head(): Codec<(Byte, (Digest, (Bytes32, U64)))> {
    Pair(U8(), Pair(Node(), Pair(Array32(), Word())))
  }

  function Trace(): Codec<(seq<Digest>, (seq<Digest>, seq<PomOpening>))> {
    Pair(Nodes(), Pair(Nodes(), Vec(OpeningC())))
  }

  function PreH4(): Codec<Base> {
    Via(Pair(Head(), Trace()), BaseTo, BaseFrom)
  }

  lemma PreH4Sound()
    ensures Sound(PreH4())
  {
    hide Via, Pair, U8, Node, Nodes, Array32, Word, Vec, OpeningC, Sound;
    U8Sound();
    NodesSound();
    Array32Sound();
    WordSound();
    OpeningSound();
    PairSound(Array32(), Word());
    PairSound(Node(), Pair(Array32(), Word()));
    PairSound(U8(), Pair(Node(), Pair(Array32(), Word())));
    VecSound(OpeningC());
    PairSound(Nodes(), Vec(OpeningC()));
    PairSound(Nodes(), Pair(Nodes(), Vec(OpeningC())));
    PairSound(Head(), Trace());
    ViaSound(Pair(Head(), Trace()), BaseTo, BaseFrom);
  }

  type L1 = (Base, Option<seq<PomStep>>)
  type L2 = (L1, Option<PomProofV3>)
  type L3 = (L2, Option<Rewalk.Proof>)
  type L4 = (L3, Option<seq<Byte>>)

  function PreV3(): Codec<L1> { Pair(PreH4(), Opt(Vec(StepC()))) }

  function PreV4(): Codec<L2> { Pair(PreV3(), Opt(V3C())) }

  function PreTask(): Codec<L3> { Pair(PreV4(), Opt(V4C())) }

  function Full(): Codec<L4> { Pair(PreTask(), Opt(Raw())) }

  lemma LayoutsSound()
    ensures Sound(PreH4()) && Sound(PreV3()) && Sound(PreV4()) && Sound(PreTask()) && Sound(Full())
  {
    hide Pair, Opt, Vec, StepC, V3C, V4C, Raw, PreH4, Sound;
    PreH4Sound();
    StepSound();
    V3Sound();
    V4Sound();
    RawSound();
    VecSound(StepC());
    OptSound(Vec(StepC()));
    OptSound(V3C());
    OptSound(V4C());
    OptSound(Raw());
    PairSound(PreH4(), Opt(Vec(StepC())));
    PairSound(PreV3(), Opt(V3C()));
    PairSound(PreV4(), Opt(V4C()));
    PairSound(PreTask(), Opt(Raw()));
  }

  function BaseOf(p: PomProof): Base {
    Base(p.tier, p.traceRoot, p.powValue, p.finalState, p.initialTracePath, p.finalTracePath, p.openings)
  }

  function To1(p: PomProof): L1 { (BaseOf(p), p.stepsV2) }

  function To2(p: PomProof): L2 { (To1(p), p.v3) }

  function To3(p: PomProof): L3 { (To2(p), p.v4) }

  function To4(p: PomProof): L4 { (To3(p), p.task) }

  function From4(l: L4): PomProof {
    var b := l.0.0.0.0;
    PomProof(b.tier, b.traceRoot, b.powValue, b.finalState, b.initialTracePath, b.finalTracePath, b.openings,
             l.0.0.0.1, l.0.0.1, l.0.1, l.1)
  }

  function From3(l: L3): PomProof { From4((l, None)) }

  function From2(l: L2): PomProof { From3((l, None)) }

  function From1(l: L1): PomProof { From2((l, None)) }

  function From0(b: Base): PomProof { From1((b, None)) }

  /** No count exceeds 32 bits, so serialization does not panic. */
  predicate Encodable(p: PomProof) {
    Full().valid(To4(p))
  }

  /** `to_wire_bytes`: the shortest layout that holds the proof. */
  function ToWireBytes(p: PomProof): seq<Byte> {
    if p.task.Some? then Full().enc(To4(p))
    else if p.v4.Some? then PreTask().enc(To3(p))
    else if p.v3.Some? then PreV4().enc(To2(p))
    else if p.stepsV2.Some? then PreV3().enc(To1(p))
    else PreH4().enc(BaseOf(p))
  }

  /** `from_wire_bytes`: the longest layout that accepts. */
  function FromWireBytes(bytes: seq<Byte>): Option<PomProof> {
    match FromSlice(Full(), bytes)
    case Some(l) => Some(From4(l))
    case None =>
      match FromSlice(PreTask(), bytes)
      case Some(l) => Some(From3(l))
      case None =>
        match FromSlice(PreV4(), bytes)
        case Some(l) => Some(From2(l))
        case None =>
          match FromSlice(PreV3(), bytes)
          case Some(l) => Some(From1(l))
          case None =>
            match FromSlice(PreH4(), bytes)
            case Some(b) => Some(From0(b))
            case None => None
  }

  lemma LongerLayoutsFail(p: PomProof)
    requires Encodable(p)
    ensures PreH4().valid(BaseOf(p)) && PreV3().valid(To1(p)) && PreV4().valid(To2(p)) && PreTask().valid(To3(p))
    ensures PreV3().dec(PreH4().enc(BaseOf(p))) == None
    ensures PreV4().dec(PreV3().enc(To1(p))) == None
    ensures PreTask().dec(PreV4().enc(To2(p))) == None
    ensures Full().dec(PreTask().enc(To3(p))) == None
  {
    hide Opt, Vec, StepC, V3C, V4C, Raw, PreH4, Sound;
    LayoutsSound();
    LongerFails(PreH4(), Vec(StepC()), BaseOf(p));
    LongerFails(PreV3(), V3C(), To1(p));
    LongerFails(PreV4(), V4C(), To2(p));
    LongerFails(PreTask(), Raw(), To3(p));
  }

  lemma FailuresPropagate(s: seq<Byte>)
    ensures PreV3().dec(s) == None ==> PreV4().dec(s) == None
    ensures PreV4().dec(s) == None ==> PreTask().dec(s) == None
    ensures PreTask().dec(s) == None ==> Full().dec(s) == None
  {
    hide Opt, Vec, StepC, V3C, V4C, Raw, PreH4;
    if PreV3().dec(s) == None { FailurePropagates(PreV3(), Opt(V3C()), s); }
    if PreV4().dec(s) == None { FailurePropagates(PreV4(), Opt(V4C()), s); }
    if PreTask().dec(s) == None { FailurePropagates(PreTask(), Opt(Raw()), s); }
  }

  // ---- what is accepted, and what is canonical ----

  /** `p` in layout `k`: the seven fields, then `k` options. */
  function EncAt(p: PomProof, k: nat): seq<Byte> {
    if k == 0 then PreH4().enc(BaseOf(p))
    else if k == 1 then PreV3().enc(To1(p))
    else if k == 2 then PreV4().enc(To2(p))
    else if k == 3 then PreTask().enc(To3(p))
    else Full().enc(To4(p))
  }

  /** The last option of layout `k`. */
  predicate HasOption(p: PomProof, k: nat) {
    if k == 1 then p.stepsV2.Some? else if k == 2 then p.v3.Some? else if k == 3 then p.v4.Some? else p.task.Some?
  }

  /** Layout `k` can say all of `p`, and `bytes` are `p` in it. */
  ghost predicate InLayout(p: PomProof, k: nat, bytes: seq<Byte>) {
    && k <= 4 && Encodable(p) && bytes == EncAt(p, k)
    && forall j :: k < j <= 4 ==> !HasOption(p, j)
  }

  lemma EncodableFull(p: PomProof)
    requires Encodable(p)
    ensures Full().valid(To4(p))
  {}

  /** The decoder reads `p` back from every layout that can say it. */
  lemma LayoutAccepted(p: PomProof, k: nat)
    requires InLayout(p, k, EncAt(p, k))
    ensures FromWireBytes(EncAt(p, k)) == Some(p)
  {
    hide Full, PreTask, PreV4, PreV3, PreH4, Sound, Encodable;
    LayoutsSound();
    LongerLayoutsFail(p);
    EncodableFull(p);
    FailuresPropagate(EncAt(p, k));
    assert (k < 4 ==> !HasOption(p, 4)) && (k < 3 ==> !HasOption(p, 3)) && (k < 2 ==> !HasOption(p, 2));
    assert k < 1 ==> !HasOption(p, 1);
    if k == 4 {
      FromSliceBack(Full(), To4(p));
    } else if k == 3 {
      FromSliceBack(PreTask(), To3(p));
    } else if k == 2 {
      FromSliceBack(PreV4(), To2(p));
    } else if k == 1 {
      FromSliceBack(PreV3(), To1(p));
    } else {
      FromSliceBack(PreH4(), BaseOf(p));
    }
  }

  /** The layout the encoder picks. */
  function Shortest(p: PomProof): (k: nat)
    ensures k <= 4 && (k > 0 ==> HasOption(p, k)) && forall j :: k < j <= 4 ==> !HasOption(p, j)
  {
    if p.task.Some? then 4 else if p.v4.Some? then 3 else if p.v3.Some? then 2 else if p.stepsV2.Some? then 1 else 0
  }

  lemma EncoderPicks(p: PomProof)
    ensures ToWireBytes(p) == EncAt(p, Shortest(p))
  {
    hide Full, PreTask, PreV4, PreV3, PreH4;
  }

  /** Every proof of every era comes back as itself. */
  lemma WireRoundTrip(p: PomProof)
    requires Encodable(p)
    ensures FromWireBytes(ToWireBytes(p)) == Some(p)
  {
    hide ToWireBytes, FromWireBytes, EncAt, Encodable, HasOption;
    EncoderPicks(p);
    LayoutAccepted(p, Shortest(p));
  }

  /** Different proofs have different bytes, whatever their eras. */
  lemma WireInjective(p: PomProof, q: PomProof)
    requires Encodable(p) && Encodable(q) && ToWireBytes(p) == ToWireBytes(q)
    ensures p == q
  {
    hide ToWireBytes, FromWireBytes, Encodable;
    WireRoundTrip(p);
    WireRoundTrip(q);
  }

  /** The bytes of layout `j` decode in no longer layout. */
  lemma LongerRefuses(p: PomProof, j: nat, q: PomProof, k: nat)
    requires Encodable(p) && Encodable(q) && j < k <= 4
    ensures EncAt(p, j) != EncAt(q, k)
  {
    hide Full, PreTask, PreV4, PreV3, PreH4, Sound, Encodable;
    LayoutsSound();
    LongerLayoutsFail(p);
    LongerLayoutsFail(q);
    EncodableFull(q);
    FailuresPropagate(EncAt(p, j));
    if k == 4 {
      FromSliceBack(Full(), To4(q));
    } else if k == 3 {
      FromSliceBack(PreTask(), To3(q));
    } else if k == 2 {
      FromSliceBack(PreV4(), To2(q));
    } else {
      FromSliceBack(PreV3(), To1(q));
    }
  }

  /** No bytes are two proofs, nor one proof in two layouts. */
  lemma LayoutUnique(p: PomProof, j: nat, q: PomProof, k: nat, bytes: seq<Byte>)
    requires InLayout(p, j, bytes) && InLayout(q, k, bytes)
    ensures p == q && j == k
  {
    hide EncAt, Encodable, HasOption, FromWireBytes;
    LayoutAccepted(p, j);
    LayoutAccepted(q, k);
    if j < k {
      LongerRefuses(p, j, q, k);
    } else if k < j {
      LongerRefuses(q, k, p, j);
    }
  }

  /** What a decoded layout holds. */
  lemma DecodedIsLayout(bytes: seq<Byte>) returns (k: nat)
    requires FromWireBytes(bytes).Some?
    ensures InLayout(FromWireBytes(bytes).value, k, bytes)
  {
    hide Full, PreTask, PreV4, PreV3, PreH4, Sound, Encodable, FromSlice;
    LayoutsSound();
    var p := FromWireBytes(bytes).value;
    if FromSlice(Full(), bytes).Some? {
      k := 4;
      FromSliceTight(Full(), bytes);
      ValidIsEncodable(FromSlice(Full(), bytes).value);
    } else if FromSlice(PreTask(), bytes).Some? {
      k := 3;
      FromSliceTight(PreTask(), bytes);
      Valid3(FromSlice(PreTask(), bytes).value);
    } else if FromSlice(PreV4(), bytes).Some? {
      k := 2;
      FromSliceTight(PreV4(), bytes);
      Valid2(FromSlice(PreV4(), bytes).value);
    } else if FromSlice(PreV3(), bytes).Some? {
      k := 1;
      FromSliceTight(PreV3(), bytes);
      Valid1(FromSlice(PreV3(), bytes).value);
    } else {
      k := 0;
      FromSliceTight(PreH4(), bytes);
      Valid0(FromSlice(PreH4(), bytes).value);
    }
  }

  lemma ValidIsEncodable(l: L4)
    requires Full().valid(l)
    ensures Encodable(From4(l)) && To4(From4(l)) == l
  {
    hide Full;
    var b := l.0.0.0.0;
    assert BaseOf(From4(l)) == b;
  }

  lemma Valid3(l: L3)
    requires PreTask().valid(l)
    ensures Encodable(From3(l)) && To3(From3(l)) == l && From3(l).task.None?
  {
    hide PreTask, Raw;
    assert Full().valid((l, None));
    ValidIsEncodable((l, None));
  }

  lemma Valid2(l: L2)
    requires PreV4().valid(l)
    ensures Encodable(From2(l)) && To2(From2(l)) == l && From2(l).task.None? && From2(l).v4.None?
  {
    hide PreV4, V4C, Encodable;
    assert PreTask().valid((l, None));
    Valid3((l, None));
  }

  lemma Valid1(l: L1)
    requires PreV3().valid(l)
    ensures Encodable(From1(l)) && To1(From1(l)) == l
    ensures From1(l).task.None? && From1(l).v4.None? && From1(l).v3.None?
  {
    hide PreV3, V3C, Encodable;
    assert PreV4().valid((l, None));
    Valid2((l, None));
  }

  lemma Valid0(b: Base)
    requires PreH4().valid(b)
    ensures Encodable(From0(b)) && BaseOf(From0(b)) == b
    ensures From0(b).task.None? && From0(b).v4.None? && From0(b).v3.None? && From0(b).stepsV2.None?
  {
    hide PreH4, StepC, Vec, Encodable;
    assert PreV3().valid((b, None));
    Valid1((b, None));
  }

  /** For every byte string: it decodes to `p` if and only if it is `p` in one of the five layouts. */
  lemma AcceptedIff(bytes: seq<Byte>, p: PomProof)
    ensures FromWireBytes(bytes) == Some(p) <==> exists k :: InLayout(p, k, bytes)
  {
    hide FromWireBytes, InLayout;
    if FromWireBytes(bytes) == Some(p) {
      var k := DecodedIsLayout(bytes);
    }
    if k: nat :| InLayout(p, k, bytes) {
      InLayoutBytes(p, k, bytes);
      LayoutAccepted(p, k);
    }
  }

  lemma InLayoutBytes(p: PomProof, k: nat, bytes: seq<Byte>)
    requires InLayout(p, k, bytes)
    ensures bytes == EncAt(p, k)
  {}

  /** A layout's bytes are the shorter layout's, the option's tag, and its value. */
  lemma OptionTag(p: PomProof, k: nat)
    requires 1 <= k <= 4
    ensures EncAt(p, k - 1) < EncAt(p, k)
    ensures EncAt(p, k)[|EncAt(p, k - 1)|] == if HasOption(p, k) then 1 else 0
  {
    hide PreH4, Vec, StepC, V3C, V4C, Raw;
  }

  /** Accepted bytes are the encoder's own if and only if they are the seven fields alone, or the tag
      of their layout's last option is 1. */
  lemma CanonicalIff(p: PomProof, k: nat, bytes: seq<Byte>)
    requires InLayout(p, k, bytes)
    ensures k > 0 ==> |EncAt(p, k - 1)| < |bytes|
    ensures bytes == ToWireBytes(p) <==> k == 0 || bytes[|EncAt(p, k - 1)|] == 1
  {
    hide EncAt, Encodable, ToWireBytes, HasOption;
    EncoderPicks(p);
    if k > 0 { OptionTag(p, k); }
    if bytes == ToWireBytes(p) {
      LayoutUnique(p, k, p, Shortest(p), bytes);
    }
  }

  /** Every proof has a layout the encoder never uses and the decoder takes: the longest one when it
      carries no task, and so on down. */
  lemma LongFormAccepted(p: PomProof, k: nat)
    requires Encodable(p) && Shortest(p) <= k <= 4
    ensures FromWireBytes(EncAt(p, k)) == Some(p)
    ensures EncAt(p, k) == ToWireBytes(p) <==> k == Shortest(p)
  {
    hide EncAt, Encodable, ToWireBytes, HasOption, FromWireBytes;
    EncoderPicks(p);
    LayoutAccepted(p, k);
    if k > Shortest(p) { LongerRefuses(p, Shortest(p), p, k); }
  }
}
