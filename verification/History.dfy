/** The stored conversation and what a request adds to it. */
module History {
  import opened Text
  import opened Messages

  datatype Kind = Human | Ai | System | Tool

  /** A stored message. `id` is set by the checkpoint store when it is appended. */
  datatype Message =
    Message(kind: Kind, content: string, name: Option<string>, toolCallId: Option<string>, id: Option<nat>)

  datatype Projection = Projection(kind: Kind, content: string, name: Option<string>, toolCallId: Option<string>)

  function Project(m: Message): Projection {
    Projection(m.kind, m.content, m.name, m.toolCallId)
  }

  function ProjectAll(ms: seq<Message>): seq<Projection> {
    Map(Project, ms)
  }

  lemma ProjectAppend(a: seq<Message>, b: seq<Message>)
    ensures ProjectAll(a + b) == ProjectAll(a) + ProjectAll(b)
  {
  }

  // ---------------------------------------------------------- normalisation

  function HumanMessage(content: string): Message { Message(Human, content, None, None, None) }

  function AiMessage(content: string): Message { Message(Ai, content, None, None, None) }

  /** `_normalize_request_message`: nothing for an empty text. `index` is the
      position in the raw request. */
  function NormalizeMessage(m: ReqMessage, index: nat): seq<Message> {
    var content := TextOf(m.content);
    var role := NormalRole(m.role);
    if content == "" then []
    else if role == "assistant" then [AiMessage(content)]
    else if role == "system" then [Message(System, content, None, None, None)]
    else if role == "tool" then
      var id := if m.toolCallId.GetOr("") != "" then m.toolCallId.value else "tool-" + Decimal(index);
      [Message(Tool, content, None, Some(id), None)]
    else [HumanMessage(content)]
  }

  /** The normalised messages of a request whose first message has index `start`. */
  function NormalizeFrom(ms: seq<ReqMessage>, start: nat): seq<Message> {
    FlatMapIndexed(NormalizeMessage, ms, start)
  }

  function Normalize(ms: seq<ReqMessage>): seq<Message> {
    NormalizeFrom(ms, 0)
  }

  method NormalizeRequestMessages(ms: seq<ReqMessage>) returns (messages: seq<Message>)
    ensures messages == Normalize(ms)
  {
    messages := [];
    for i := 0 to |ms|
      invariant messages + NormalizeFrom(ms[i..], i) == Normalize(ms)
    {
      assert ms[i..][1..] == ms[i + 1..];
      Associate(messages, NormalizeMessage(ms[i], i), NormalizeFrom(ms[i + 1..], i + 1));
      messages := messages + NormalizeMessage(ms[i], i);
    }
    assert ms[|ms|..] == [];
  }

  lemma NormalizeSplit(a: seq<ReqMessage>, b: seq<ReqMessage>)
    ensures Normalize(a + b) == Normalize(a) + NormalizeFrom(b, |a|)
  {
    FlatMapIndexedAppend(NormalizeMessage, a, b, 0);
  }

  // ------------------------------------------------------------------ deltas

  function Min(a: nat, b: nat): nat {
    if a < b then a else b
  }

  /** How long `a` and `b` agree from the front. */
  function CommonPrefix<T(==)>(a: seq<T>, b: seq<T>): (k: nat)
    ensures k <= |a| && k <= |b| && a[..k] == b[..k]
    ensures k < |a| && k < |b| ==> a[k] != b[k]
  {
    if a == [] || b == [] || a[0] != b[0] then 0
    else
      var k := 1 + CommonPrefix(a[1..], b[1..]);
      assert a[..k] == [a[0]] + a[1..][..k - 1] && b[..k] == [b[0]] + b[1..][..k - 1];
      k
  }

  /** The last `k` of `a` are the first `k` of `b`. */
  predicate Overlap<T(==)>(a: seq<T>, b: seq<T>, k: int) {
    0 <= k <= |a| && k <= |b| && a[|a| - k..] == b[..k]
  }

  /** The largest overlap of at most `limit`. */
  function LongestOverlap<T(==)>(a: seq<T>, b: seq<T>, limit: nat): (k: nat)
    requires limit <= |a| && limit <= |b|
    ensures k <= limit && Overlap(a, b, k)
    ensures forall j :: k < j <= limit ==> !Overlap(a, b, j)
  {
    if limit == 0 || Overlap(a, b, limit) then limit else LongestOverlap(a, b, limit - 1)
  }

  function MaxOverlap<T(==)>(a: seq<T>, b: seq<T>): (k: nat)
    ensures Overlap(a, b, k)
    ensures forall j :: Overlap(a, b, j) ==> j <= k
  {
    LongestOverlap(a, b, Min(|a|, |b|))
  }

  /** How many messages at the front of a request are known already. */
  function DropCount<T(==)>(existing: seq<T>, incoming: seq<T>): (k: nat)
    ensures k <= |incoming|
  {
    if existing == [] || incoming == [] then 0
    else if existing[0] == incoming[0] then CommonPrefix(existing, incoming)
    else MaxOverlap(existing, incoming)
  }

  function Delta(existing: seq<Message>, incoming: seq<Message>): seq<Message> {
    incoming[DropCount(ProjectAll(existing), ProjectAll(incoming))..]
  }

  /** `_messages_delta`. */
  method MessagesDelta(existing: seq<Message>, incoming: seq<Message>) returns (delta: seq<Message>)
    ensures delta == Delta(existing, incoming)
  {
    if existing == [] || incoming == [] { return incoming; }
    var left, right := ProjectAll(existing), ProjectAll(incoming);
    var commonPrefix := 0;
    while commonPrefix < |left| && commonPrefix < |right|
      invariant commonPrefix <= |left| && commonPrefix <= |right|
      invariant forall i :: 0 <= i < commonPrefix ==> left[i] == right[i]
    {
      if left[commonPrefix] != right[commonPrefix] { break; }
      commonPrefix := commonPrefix + 1;
    }
    PrefixFound(left, right, commonPrefix);
    if commonPrefix != 0 { return incoming[commonPrefix..]; }
    var size := Min(|left|, |right|);
    while size > 0
      invariant size <= Min(|left|, |right|)
      invariant forall j :: size < j <= Min(|left|, |right|) ==> !Overlap(left, right, j)
    {
      if left[|left| - size..] == right[..size] {
        OverlapFound(left, right, size);
        return incoming[size..];
      }
      size := size - 1;
    }
    OverlapFound(left, right, 0);
    return incoming;
  }

  lemma PrefixFound<T>(left: seq<T>, right: seq<T>, k: nat)
    requires left != [] && right != [] && k <= |left| && k <= |right|
    requires forall i :: 0 <= i < k ==> left[i] == right[i]
    requires k < |left| && k < |right| ==> left[k] != right[k]
    ensures k != 0 ==> DropCount(left, right) == k
    ensures k == 0 ==> left[0] != right[0]
  {
    assert left[..k] == right[..k];
    CommonPrefixUnique(left, right, k);
  }

  lemma OverlapFound<T>(left: seq<T>, right: seq<T>, size: nat)
    requires left != [] && right != [] && left[0] != right[0] && size <= Min(|left|, |right|)
    requires forall j :: size < j <= Min(|left|, |right|) ==> !Overlap(left, right, j)
    requires left[|left| - size..] == right[..size]
    ensures DropCount(left, right) == size
  {
    assert Overlap(left, right, size);
  }

  lemma CommonPrefixUnique<T>(a: seq<T>, b: seq<T>, k: nat)
    requires k <= |a| && k <= |b| && a[..k] == b[..k]
    requires k < |a| && k < |b| ==> a[k] != b[k]
    ensures CommonPrefix(a, b) == k
  {
  }

  lemma LongerPrefixDiffers<T>(existing: seq<T>, incoming: seq<T>, j: nat)
    requires CommonPrefix(existing, incoming) < j <= |incoming|
    ensures !(incoming[..j] <= existing)
  {
    assert incoming[..j][CommonPrefix(existing, incoming)] == incoming[CommonPrefix(existing, incoming)];
  }

  /** What a request drops is a prefix of the stored history when the two begin
      alike, and a suffix of it otherwise, as long as possible either way. */
  lemma DropCountMeaning<T>(existing: seq<T>, incoming: seq<T>)
    ensures var k := DropCount(existing, incoming);
            if existing != [] && incoming != [] && existing[0] == incoming[0]
            then incoming[..k] <= existing && forall j :: k < j <= |incoming| ==> !(incoming[..j] <= existing)
            else Overlap(existing, incoming, k) && forall j :: Overlap(existing, incoming, j) ==> j <= k
  {
    if existing != [] && incoming != [] && existing[0] == incoming[0] {
      var k := CommonPrefix(existing, incoming);
      assert existing[..k] == incoming[..k];
      forall j | k < j <= |incoming| ensures !(incoming[..j] <= existing) {
        LongerPrefixDiffers(existing, incoming, j);
      }
    }
  }

  /** The delta is a suffix of the request, and the dropped front is known. */
  lemma DeltaLosesNothing(existing: seq<Message>, incoming: seq<Message>)
    ensures var delta := Delta(existing, incoming);
            var k := |incoming| - |delta|;
            && k >= 0 && incoming == incoming[..k] + delta
            && (ProjectAll(incoming[..k]) <= ProjectAll(existing)
                || IsSuffix(ProjectAll(incoming[..k]), ProjectAll(existing)))
  {
    var e, i := ProjectAll(existing), ProjectAll(incoming);
    var k := DropCount(e, i);
    DropCountMeaning(e, i);
    assert |e| == |existing| && |i| == |incoming| && k <= |incoming|;
    assert ProjectAll(incoming[..k]) == i[..k];
  }

  // ----------------------------------------------------------- shortest merge

  predicate IsSuffix<T(==)>(b: seq<T>, s: seq<T>) {
    |b| <= |s| && s[|s| - |b|..] == b
  }

  predicate IsMerge<T(==)>(a: seq<T>, b: seq<T>, m: seq<T>) {
    a <= m && IsSuffix(b, m)
  }

  ghost predicate IsShortestMerge<T(!new)>(a: seq<T>, b: seq<T>, m: seq<T>) {
    IsMerge(a, b, m) && forall x: seq<T> :: IsMerge(a, b, x) ==> |m| <= |x|
  }

  lemma MergeOfOverlap<T>(a: seq<T>, b: seq<T>, k: nat)
    requires k <= |b|
    ensures Overlap(a, b, k) ==> IsMerge(a, b, a + b[k..])
    ensures IsMerge(a, b, a + b[k..]) && k <= |a| ==> Overlap(a, b, k)
  {
    var m := a + b[k..];
    if Overlap(a, b, k) {
      assert m == a[..|a| - k] + a[|a| - k..] + b[k..];
      assert m[|m| - |b|..] == b[..k] + b[k..] == b;
    }
    if IsMerge(a, b, m) && k <= |a| {
      assert a[|a| - k..] == m[|m| - |b|..][..k];
    }
  }

  /** A merge no longer than `a` and `b` together makes them overlap. */
  lemma OverlapOfMerge<T>(a: seq<T>, b: seq<T>, m: seq<T>)
    requires IsMerge(a, b, m) && |m| <= |a| + |b|
    ensures Overlap(a, b, |a| + |b| - |m|)
  {
    var k := |a| + |b| - |m|;
    assert a == m[..|a|];
    assert a[|a| - k..] == m[|m| - |b|..|a|];
    assert b[..k] == m[|m| - |b|..][..k] == m[|m| - |b|..|a|];
  }

  /** What the history becomes is the shortest sequence that begins with the old
      history and ends with the request, exactly when the dropped part is the
      longest overlap. */
  lemma ShortestDropsOverlap<T(!new)>(existing: seq<T>, incoming: seq<T>)
    requires existing != [] && incoming != []
    ensures IsShortestMerge(existing, incoming, existing + incoming[DropCount(existing, incoming)..])
       <==> DropCount(existing, incoming) == MaxOverlap(existing, incoming)
  {
    var k, best := DropCount(existing, incoming), MaxOverlap(existing, incoming);
    var m, shortest := existing + incoming[k..], existing + incoming[best..];
    MergeOfOverlap(existing, incoming, best);
    MergeOfOverlap(existing, incoming, k);
    forall x | IsMerge(existing, incoming, x) ensures |shortest| <= |x| {
      if |x| <= |existing| + |incoming| {
        OverlapOfMerge(existing, incoming, x);
      }
    }
    if IsShortestMerge(existing, incoming, m) {
      OverlapOfMerge(existing, incoming, m);
    }
  }

  /** In terms of the two lists: the merge is shortest exactly when they begin
      differently, or when they agree from the front for as long as the end of
      one is the front of the other. */
  lemma MergeIsShortestIff<T(!new)>(existing: seq<T>, incoming: seq<T>)
    requires existing != [] && incoming != []
    ensures IsShortestMerge(existing, incoming, existing + incoming[DropCount(existing, incoming)..])
       <==> existing[0] != incoming[0] || CommonPrefix(existing, incoming) == MaxOverlap(existing, incoming)
  {
    ShortestDropsOverlap(existing, incoming);
  }

  /** A request that resends the whole history, as a client with the full
      transcript does, meets the condition. */
  lemma ExtensionIsShortest<T(!new)>(existing: seq<T>, incoming: seq<T>)
    requires existing != [] && existing <= incoming
    ensures IsShortestMerge(existing, incoming, existing + incoming[DropCount(existing, incoming)..])
    ensures existing + incoming[DropCount(existing, incoming)..] == incoming
  {
    var n := |existing|;
    assert existing[..n] == incoming[..n] && existing[0] == incoming[..n][0];
    CommonPrefixUnique(existing, incoming, n);
    assert Overlap(existing, incoming, n);
    MergeIsShortestIff(existing, incoming);
  }

  /** In particular whenever the two share no first message. */
  lemma MergeIsShortest<T(!new)>(existing: seq<T>, incoming: seq<T>)
    requires existing != [] && incoming != [] && existing[0] != incoming[0]
    ensures IsShortestMerge(existing, incoming, existing + incoming[DropCount(existing, incoming)..])
  {
    MergeIsShortestIff(existing, incoming);
  }

  /** A shared first message hides a longer overlap: the window `[A, C, D]` of a
      history `[A, B, A, C]` appends `C` a second time. */
  lemma PrefixHidesOverlap<T(!new)>(a: T, b: T, c: T, d: T)
    requires a != b && a != c && b != c && a != d && b != d && c != d
    ensures var existing, incoming := [a, b, a, c], [a, c, d];
            && incoming[DropCount(existing, incoming)..] == [c, d]
            && MaxOverlap(existing, incoming) == 2
            && !IsShortestMerge(existing, incoming, existing + incoming[DropCount(existing, incoming)..])
  {
    var existing, incoming := [a, b, a, c], [a, c, d];
    CommonPrefixUnique(existing, incoming, 1);
    assert existing[2..] == [a, c] == incoming[..2];
    assert Overlap(existing, incoming, 2);
    assert existing[1..][0] == b && incoming[..3][0] == a;
    assert !Overlap(existing, incoming, 3);
    MergeIsShortestIff(existing, incoming);
  }
}
