/**
 * The reply generator: the system instructions chosen by domain mode, the
 * mapping of stored roles to the model's roles, the prompt built from the
 * recent history of a conversation, the trim-or-fallback applied to the
 * model's text, and the fixed-size splitting of a reply into chunks. The
 * language model itself is a parameter (`Generator`).
 */
module Gemini {
  import opened Wrappers
  import opened Entities
  import JsText
  import ConversationStore

  /** System instructions for the "generic" mode (and any mode other than "mikrotik"). */
  const SystemGeneric: string := "\nVocê é o assistente da (Tatione Telecom). Foque em telecom, atendimento claro, prático e humano.\nQuando faltar contexto, peça os dados necessários.\n"

  /** System instructions for the "mikrotik" mode. */
  const SystemMikroTik: string := "\nVocê é um especialista em redes e MikroTik (RouterOS v7).\nRegras:\n- Sempre prefira comandos v7 com prefixos (ex.: /interface, /ip, /routing).\n- Verifique coerência dos comandos e **não use** ações destrutivas sem confirmação (ex.: /system reset-configuration).\n- Para NAT básico: use masquerade em out-interface WAN. Para port-forward, use dst-nat + firewall filter quando necessário.\n- Para VLAN: use bridge vlan-filtering, portas trunk/access, tagging correto, pvid e frame-types.\n- Para PPPoE: server no concentrador, client no CPE. Checar MTU/MRU 1492 e MSS clamp quando aplicável.\n- Para Wi-Fi (CAPsMAN ou wifiwave2), dê comandos por perfil e segurança WPA2/WPA3 quando suportado.\n- Sempre explique brevemente **por que** os comandos resolvem o problema.\n- Se faltar contexto essencial (modelo do roteador, RouterOS versão, interfaces WAN/LAN, VLAN IDs), peça antes.\nFormato:\n- Devolva trechos de configuração em blocos de código com sintaxe RouterOS.\n- Quando possível, dê também comandos de verificação (/interface/print, /ip/address/print, /log/print).\n"

  /** What the reply is when the model's text is empty once trimmed. */
  const FallbackReply: string := "Desculpe, não consegui gerar uma resposta agora."

  /** How many stored messages a prompt carries at most, when the caller does not say. */
  const DefaultMaxHistory: nat := 6

  /** The chunk length `SplitIntoChunks` uses when the caller does not say. */
  const DefaultChunkSize: nat := 3800

  datatype GeminiRole = GeminiUser | GeminiModel

  /** One turn of a prompt: a role and its single text part. */
  datatype Content = Content(role: GeminiRole, text: string)

  /** What one call to the model gives: its text (absent when the response carries none), or a failure. */
  datatype GenOutcome = Produced(text: Option<string>) | GenFailed

  datatype ReplyError = MissingApiKey | GenerationFailed

  /** The language model: from a prompt to an outcome. */
  type Generator = seq<Content> -> GenOutcome

  // ---------------------------------------------------------------------------
  // Roles, modes and the prompt

  /** Only the user's messages stay user turns; assistant and system messages become model turns. */
  function ToGeminiRole(role: Role): (g: GeminiRole)
    ensures g == GeminiUser <==> role == UserRole
  {
    if role == UserRole then GeminiUser else GeminiModel
  }

  /** The MikroTik instructions exactly for mode "mikrotik", the generic ones for every other string. */
  function SystemFor(mode: string): (r: string)
    ensures r == SystemMikroTik <==> mode == "mikrotik"
    ensures r == SystemGeneric <==> mode != "mikrotik"
  {
    if mode == "mikrotik" then SystemMikroTik else SystemGeneric
  }

  /** The stored mode of conversation `id`, or "generic" when there is no such conversation. */
  function ModeOf(conversations: map<string, Conversation>, id: string): (mode: string)
    ensures id in conversations ==> mode == conversations[id].domainMode
    ensures id !in conversations ==> mode == "generic"
  {
    if id in conversations then conversations[id].domainMode else "generic"
  }

  /** A missing conversation is prompted as "generic"; an existing one by its own mode. */
  lemma SystemBlockOf(conversations: map<string, Conversation>, id: string)
    ensures (SystemFor(ModeOf(conversations, id)) == SystemMikroTik)
              <==> (id in conversations && conversations[id].domainMode == "mikrotik")
    ensures id !in conversations ==> SystemFor(ModeOf(conversations, id)) == SystemGeneric
  {
  }

  /**
   * The prompt: a user turn with the system instructions, then each history
   * message (oldest first) as a turn of its mapped role, then a user turn with
   * the new text.
   */
  function Prompt(mode: string, history: seq<Message>, userText: string): (p: seq<Content>)
    ensures |p| == |history| + 2
    ensures p[0] == Content(GeminiUser, SystemFor(mode))
    ensures forall k :: 0 <= k < |history| ==>
              p[k + 1] == Content(ToGeminiRole(history[k].role), history[k].content)
    ensures p[|p| - 1] == Content(GeminiUser, userText)
  {
    [Content(GeminiUser, SystemFor(mode))]
    + seq(|history|, k requires 0 <= k < |history| =>
            Content(ToGeminiRole(history[k].role), history[k].content))
    + [Content(GeminiUser, userText)]
  }

  // ---------------------------------------------------------------------------
  // The history query and its reversal

  /** The messages of conversation `id`, in creation order. */
  function MessagesOf(messages: seq<Message>, id: string): (r: seq<Message>)
    ensures |r| <= |messages|
    ensures forall k :: 0 <= k < |r| ==> r[k].conversationId == id
    ensures forall i :: 0 <= i < |messages| && messages[i].conversationId == id ==> messages[i] in r
  {
    if messages == [] then []
    else
      var last := messages[|messages| - 1];
      var rest := MessagesOf(messages[..|messages| - 1], id);
      if last.conversationId == id then rest + [last] else rest
  }

  /** A message appended to conversation `id` becomes its newest message. */
  lemma MessagesOfAppend(messages: seq<Message>, m: Message, id: string)
    ensures MessagesOf(messages + [m], id)
              == if m.conversationId == id then MessagesOf(messages, id) + [m] else MessagesOf(messages, id)
  {
    assert (messages + [m])[..|messages|] == messages;
  }

  /**
   * Filtering a store split in two is filtering each part, earlier part
   * first: the query keeps the store's order.
   */
  lemma {:induction false} MessagesOfConcat(a: seq<Message>, b: seq<Message>, id: string)
    ensures MessagesOf(a + b, id) == MessagesOf(a, id) + MessagesOf(b, id)
  {
    if b == [] {
      assert a + b == a;
    } else {
      var init := b[..|b| - 1];
      MessagesOfConcat(a, init, id);
      assert (a + b)[..|a + b| - 1] == a + init;
    }
  }

  function Reverse<T>(s: seq<T>): (r: seq<T>)
    ensures |r| == |s|
  {
    if s == [] then [] else Reverse(s[1..]) + [s[0]]
  }

  lemma {:induction false} ReverseAt<T>(s: seq<T>, k: int)
    requires 0 <= k < |s|
    ensures Reverse(s)[k] == s[|s| - 1 - k]
  {
    if k < |s| - 1 {
      ReverseAt(s[1..], k);
    }
  }

  /** A sequence holding the elements of `s` back to front is the reversal of `s`. */
  lemma MirrorIsReverse<T>(s: seq<T>, t: seq<T>)
    requires |t| == |s| && forall k :: 0 <= k < |s| ==> t[k] == s[|s| - 1 - k]
    ensures t == Reverse(s)
  {
    forall k | 0 <= k < |s|
      ensures t[k] == Reverse(s)[k]
    {
      ReverseAt(s, k);
    }
  }

  /**
   * The store query behind the history: the messages of conversation `id`
   * ordered newest first, at most `n` of them.
   */
  function FetchNewestFirst(messages: seq<Message>, id: string, n: nat): (r: seq<Message>)
    ensures |r| == Min(n, |MessagesOf(messages, id)|)
    ensures var all := MessagesOf(messages, id);
            forall k :: 0 <= k < |r| ==> r[k] == all[|all| - 1 - k]
  {
    var all := MessagesOf(messages, id);
    var newestFirst := Reverse(all);
    NewestFirstAt(all, Min(n, |all|));
    newestFirst[..Min(n, |newestFirst|)]
  }

  lemma NewestFirstAt(all: seq<Message>, h: nat)
    requires h <= |all|
    ensures forall k :: 0 <= k < h ==> Reverse(all)[k] == all[|all| - 1 - k]
  {
    forall k | 0 <= k < h
      ensures Reverse(all)[k] == all[|all| - 1 - k]
    {
      ReverseAt(all, k);
    }
  }

  /** Reversing the fetched messages gives the last `n` messages of the conversation, oldest first. */
  lemma RecentHistory(messages: seq<Message>, id: string, n: nat)
    ensures var all := MessagesOf(messages, id);
            Reverse(FetchNewestFirst(messages, id, n)) == all[|all| - Min(n, |all|)..]
  {
    var all := MessagesOf(messages, id);
    var h := Min(n, |all|);
    var fetched := FetchNewestFirst(messages, id, n);
    forall k | 0 <= k < h
      ensures Reverse(fetched)[k] == all[|all| - h + k]
    {
      ReverseAt(fetched, k);
      ReverseAt(all, h - 1 - k);
    }
  }

  /**
   * `t` is `s` with its first and last `i` elements exchanged and the middle
   * untouched: the state of an in-place reversal after `i` swaps.
   */
  ghost predicate SwappedUpTo<T>(s: seq<T>, t: seq<T>, i: int) {
    && |t| == |s| && 0 <= i <= |s| - i
    && (forall k :: 0 <= k < i ==> t[k] == s[|s| - 1 - k] && t[|s| - 1 - k] == s[k])
    && (forall k :: i <= k < |s| - i ==> t[k] == s[k])
  }

  /** One more swap of the two innermost unswapped elements. */
  lemma SwapStep<T>(s: seq<T>, t: seq<T>, i: int)
    requires SwappedUpTo(s, t, i) && i < |s| - 1 - i
    ensures SwappedUpTo(s, t[i := t[|s| - 1 - i]][|s| - 1 - i := t[i]], i + 1)
  {
  }

  /** Once the swaps meet in the middle, the result is the reversal. */
  lemma SwappedAll<T>(s: seq<T>, t: seq<T>, i: int)
    requires SwappedUpTo(s, t, i) && |s| - 1 - i <= i
    ensures t == Reverse(s)
  {
    var n := |s|;
    forall k | 0 <= k < n
      ensures t[k] == s[n - 1 - k]
    {
      if i <= k < n - i {
        assert k == n - 1 - k;
      } else if n - i <= k {
        assert t[n - 1 - (n - 1 - k)] == s[n - 1 - k];
      }
    }
    MirrorIsReverse(s, t);
  }

  /** `history.reverse()`: reverses the fetched messages in place. */
  method ReverseInPlace(a: array<Message>)
    modifies a
    ensures a[..] == Reverse(old(a[..]))
  {
    ghost var before := a[..];
    var n := a.Length;
    var i := 0;
    while i < n - 1 - i
      invariant SwappedUpTo(before, a[..], i)
    {
      ghost var cur := a[..];
      SwapStep(before, cur, i);
      a[i], a[n - 1 - i] := a[n - 1 - i], a[i];
      assert a[..] == cur[i := cur[n - 1 - i]][n - 1 - i := cur[i]];
      i := i + 1;
    }
    SwappedAll(before, a[..], i);
  }

  /** The prompt for a new `userText` in conversation `id`, given the store's contents. */
  function PromptFor(conversations: map<string, Conversation>, messages: seq<Message>, id: string,
                     userText: string, maxHistory: nat): (p: seq<Content>)
    ensures |p| == Min(maxHistory, |MessagesOf(messages, id)|) + 2
    ensures p[0] == Content(GeminiUser, SystemFor(ModeOf(conversations, id)))
    ensures p[|p| - 1] == Content(GeminiUser, userText)
  {
    Prompt(ModeOf(conversations, id), Reverse(FetchNewestFirst(messages, id, maxHistory)), userText)
  }

  /**
   * The prompt has the system block for the conversation's mode, then the
   * `h` = min(maxHistory, number of messages of the conversation) most recent
   * messages of that conversation oldest first, then the new text: h + 2 turns.
   */
  lemma PromptIsRecentHistory(conversations: map<string, Conversation>, messages: seq<Message>,
                              id: string, userText: string, maxHistory: nat)
    ensures var all := MessagesOf(messages, id);
            var h := Min(maxHistory, |all|);
            PromptFor(conversations, messages, id, userText, maxHistory)
              == Prompt(ModeOf(conversations, id), all[|all| - h..], userText)
  {
    RecentHistory(messages, id, maxHistory);
  }

  /**
   * When the user's message was stored just before the reply is generated (as
   * both handlers do) and at least one message is fetched, that message is the
   * newest history turn: the prompt ends with the same user text twice.
   */
  lemma StoredTextIsNewestTurn(conversations: map<string, Conversation>, messages: seq<Message>,
                               id: string, userText: string, maxHistory: nat)
    requires maxHistory >= 1
    ensures var p := PromptFor(conversations, messages + [Message(id, UserRole, userText)], id, userText, maxHistory);
            |p| >= 3 && p[|p| - 2] == p[|p| - 1] == Content(GeminiUser, userText)
  {
    var stored := messages + [Message(id, UserRole, userText)];
    MessagesOfAppend(messages, Message(id, UserRole, userText), id);
    PromptIsRecentHistory(conversations, stored, id, userText, maxHistory);
  }

  // ---------------------------------------------------------------------------
  // The reply

  /**
   * `(text || "").trim() || fallback`: the model's text without surrounding
   * whitespace, or the fixed apology when nothing is left; never empty.
   */
  function FinalText(text: Option<string>): (r: string)
    ensures r != []
    ensures JsText.Trim(text.GetOr("")) != [] ==> r == JsText.Trim(text.GetOr(""))
    ensures JsText.Trim(text.GetOr("")) == [] ==> r == FallbackReply
  {
    var t := JsText.Trim(text.GetOr(""));
    if t != [] then t else FallbackReply
  }

  /**
   * `generateGeminiReply` as a function of the store's contents: a missing API
   * key fails before anything is read; otherwise the model is asked with the
   * prompt for the conversation and its failure is passed on, its text finished
   * by `FinalText`, so a successful reply is never empty.
   */
  function Reply(apiKey: string, conversations: map<string, Conversation>, messages: seq<Message>,
                 id: string, userText: string, maxHistory: nat, gen: Generator): (r: Result<string, ReplyError>)
    ensures r == Failure(MissingApiKey) <==> apiKey == ""
    ensures r.Success? ==> r.value != []
  {
    if apiKey == "" then Failure(MissingApiKey)
    else
      match gen(PromptFor(conversations, messages, id, userText, maxHistory))
      case GenFailed => Failure(GenerationFailed)
      case Produced(t) => Success(FinalText(t))
  }

  /** The reply does not depend on the store when the API key is missing. */
  lemma MissingKeyIgnoresStore(convs1: map<string, Conversation>, msgs1: seq<Message>,
                               convs2: map<string, Conversation>, msgs2: seq<Message>,
                               id: string, userText: string, maxHistory: nat, gen: Generator)
    ensures Reply("", convs1, msgs1, id, userText, maxHistory, gen)
              == Reply("", convs2, msgs2, id, userText, maxHistory, gen)
  {
  }

  /** `generateGeminiReply`: reads the store, reverses the fetched history in place and asks the model. */
  method GenerateReply(store: ConversationStore.Store, conversationId: string, userText: string,
                       maxHistory: nat, apiKey: string, gen: Generator)
    returns (r: Result<string, ReplyError>)
    ensures r == Reply(apiKey, store.conversations, store.messages, conversationId, userText, maxHistory, gen)
  {
    if apiKey == "" {
      return Failure(MissingApiKey);
    }
    var conv := store.FindConversation(conversationId);
    var mode := if conv.Some? then conv.value.domainMode else "generic";
    var fetched := FetchNewestFirst(store.messages, conversationId, maxHistory);
    var history := new Message[|fetched|](k requires 0 <= k < |fetched| => fetched[k]);
    assert history[..] == fetched;
    ReverseInPlace(history);
    assert mode == ModeOf(store.conversations, conversationId);
    var contents := Prompt(mode, history[..], userText);
    assert contents == PromptFor(store.conversations, store.messages, conversationId, userText, maxHistory);
    match gen(contents)
    case GenFailed => r := Failure(GenerationFailed);
    case Produced(t) => r := Success(FinalText(t));
  }

  // ---------------------------------------------------------------------------
  // Splitting a reply into chunks

  function Concat(chunks: seq<string>): string {
    if chunks == [] then [] else chunks[0] + Concat(chunks[1..])
  }

  /** The consecutive slices of `s` of length `max`, the last one possibly shorter. */
  function Chunks(s: string, max: nat): seq<string>
    requires max > 0
    decreases |s|
  {
    if s == [] then []
    else
      var cut := Min(max, |s|);
      [s[..cut]] + Chunks(s[cut..], max)
  }

  /** Concatenating the chunks in order gives back the string. */
  lemma {:induction false} ChunksConcat(s: string, max: nat)
    requires max > 0
    ensures Concat(Chunks(s, max)) == s
    decreases |s|
  {
    if s != [] {
      var cut := Min(max, |s|);
      ChunksConcat(s[cut..], max);
      assert Chunks(s, max)[1..] == Chunks(s[cut..], max);
      assert s[..cut] + s[cut..] == s;
    }
  }

  lemma {:induction false} MulMonotone(x: nat, y: nat, m: nat)
    requires x <= y
    ensures x * m <= y * m
    decreases y - x
  {
    if x < y {
      MulMonotone(x, y - 1, m);
      assert y * m == (y - 1) * m + m;
    }
  }

  lemma MulStep(x: nat, y: nat, m: nat)
    ensures x < y ==> x * m + m <= y * m
  {
    if x < y {
      assert (x + 1) * m == x * m + m;
      MulMonotone(x + 1, y, m);
    }
  }

  /** The quotient is the one `q` with q * m <= a < (q + 1) * m. */
  lemma DivUnique(a: int, m: int, q: nat)
    requires m > 0 && q * m <= a < q * m + m
    ensures a / m == q
  {
    var q', r := a / m, a % m;
    assert a == q' * m + r && 0 <= r < m;
    assert 0 <= q';
    MulStep(q, q', m);
    MulStep(q', q, m);
  }

  /**
   * There are ceil(|s| / max) chunks: none for the empty string, otherwise
   * the n with (n - 1) * max < |s| <= n * max.
   */
  lemma {:induction false} ChunksCount(s: string, max: nat)
    requires max > 0
    ensures var n := |Chunks(s, max)|;
            && (n == 0 <==> s == [])
            && (s != [] ==> (n - 1) * max < |s| <= n * max)
            && n == (|s| + max - 1) / max
    decreases |s|
  {
    var n := |Chunks(s, max)|;
    if s != [] {
      var cut := Min(max, |s|);
      ChunksCount(s[cut..], max);
      assert n == |Chunks(s[cut..], max)| + 1;
      CountStep(|s|, max, n - 1);
      MulPred(n, max);
    }
    DivUnique(|s| + max - 1, max, n);
  }

  /** One chunk more: when the text after the first chunk needs m chunks, the whole fits in m + 1 and not in m. */
  lemma CountStep(len: nat, max: nat, m: nat)
    requires 0 < max && 0 < len
    requires m == 0 <==> len <= max
    requires len > max ==> (m - 1) * max < len - max <= m * max
    ensures m * max < len <= m * max + max
  {
    if m > 0 {
      MulPred(m, max);
    }
  }

  /** Every chunk is non-empty and at most `max` long; all but the last are exactly `max` long. */
  lemma {:induction false} ChunkLengths(s: string, max: nat)
    requires max > 0
    ensures forall k :: 0 <= k < |Chunks(s, max)| ==> 0 < |Chunks(s, max)[k]| <= max
    ensures forall k :: 0 <= k < |Chunks(s, max)| - 1 ==> |Chunks(s, max)[k]| == max
    decreases |s|
  {
    if s != [] {
      var cut := Min(max, |s|);
      var chunks, rest := Chunks(s, max), Chunks(s[cut..], max);
      ChunkLengths(s[cut..], max);
      assert chunks == [s[..cut]] + rest;
      forall k | 1 <= k < |chunks|
        ensures chunks[k] == rest[k - 1]
      {
      }
      if rest != [] {
        assert |s| > max;
      }
    }
  }

  /** Chunk k is the slice of `s` from k * max to (k + 1) * max, cut at the end of `s`. */
  lemma {:induction false} ChunkAt(s: string, max: nat, k: nat)
    requires max > 0 && k < |Chunks(s, max)|
    ensures k * max < |s| && Chunks(s, max)[k] == s[k * max..Min((k + 1) * max, |s|)]
    decreases |s|
  {
    var cut := Min(max, |s|);
    assert Chunks(s, max) == [s[..cut]] + Chunks(s[cut..], max);
    if k > 0 {
      assert s[cut..] != [] && cut == max;
      ChunkAt(s[max..], max, k - 1);
      StepOffsets(k, max, |s|);
      ChunkShift(s, max, k - 1, (k - 1) * max, Min(k * max, |s| - max));
    }
  }

  /** A chunk of `s` without its first `max` characters is the next chunk of `s`, at offsets moved by `max`. */
  lemma ChunkShift(s: string, max: nat, j: nat, lo: nat, hi: nat)
    requires 0 < max < |s| && j < |Chunks(s[max..], max)| && lo <= hi <= |s| - max
    requires Chunks(s[max..], max)[j] == s[max..][lo..hi]
    ensures Chunks(s, max)[j + 1] == s[lo + max..hi + max]
  {
    assert Chunks(s, max) == [s[..max]] + Chunks(s[max..], max);
    SliceOfSuffix(s, max, lo, hi);
  }

  lemma SliceOfSuffix<T>(s: seq<T>, d: nat, lo: nat, hi: nat)
    requires d <= |s| && lo <= hi <= |s| - d
    ensures s[d..][lo..hi] == s[d + lo..d + hi]
  {
  }

  /** The offsets of chunk k are those of chunk k - 1 moved by `max`. */
  lemma StepOffsets(k: nat, max: nat, n: nat)
    requires 0 < k && 0 < max < n && (k - 1) * max < n - max
    ensures 0 <= (k - 1) * max <= Min(k * max, n - max)
    ensures (k - 1) * max + max == k * max < n
    ensures Min(k * max, n - max) + max == Min((k + 1) * max, n)
  {
    MulPred(k, max);
    MulPred(k + 1, max);
    MulMonotone(0, k - 1, max);
  }

  lemma MulPred(x: nat, m: nat)
    requires x > 0
    ensures x * m == (x - 1) * m + m
  {
  }

  /** The chunks of the suffix from `i` on start with the slice from `i`. */
  lemma ChunksFrom(s: string, max: nat, i: nat)
    requires max > 0 && i < |s|
    ensures Chunks(s[i..], max) == [s[i..Min(i + max, |s|)]] + Chunks(s[Min(i + max, |s|)..], max)
  {
    var t := s[i..];
    var cut := Min(max, |t|);
    assert t[..cut] == s[i..i + cut];
    assert t[cut..] == s[i + cut..];
  }

  /** One iteration of `SplitIntoChunks` keeps its invariant. */
  lemma ChunksLoopStep(s: string, max: nat, i: nat, out: seq<string>)
    requires max > 0 && i < |s| && out + Chunks(s[i..], max) == Chunks(s, max)
    ensures (out + [s[i..Min(i + max, |s|)]]) + Chunks(s[Min(i + max, |s|)..], max) == Chunks(s, max)
  {
    ChunksFrom(s, max, i);
    var x, rest := s[i..Min(i + max, |s|)], Chunks(s[Min(i + max, |s|)..], max);
    assert (out + [x]) + rest == out + ([x] + rest);
  }

  /** `splitIntoChunks`: walks `s` in steps of `max`, pushing each slice. */
  method SplitIntoChunks(s: string, max: nat) returns (out: seq<string>)
    requires max > 0
    ensures out == Chunks(s, max)
    ensures Concat(out) == s
  {
    out := [];
    var i := 0;
    while i < |s|
      invariant 0 <= i
      invariant out + Chunks(s[Min(i, |s|)..], max) == Chunks(s, max)
      decreases |s| - i
    {
      ChunksLoopStep(s, max, i, out);
      out := out + [s[i..Min(i + max, |s|)]];
      i := i + max;
    }
    assert s[Min(i, |s|)..] == [];
    ChunksConcat(s, max);
  }
}
