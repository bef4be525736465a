/**
  Image references in the chat history of packages/components/nodes/agentflow/utils.ts: stored
  files become base64 items for a model call and are turned back afterwards, and images made by
  the assistant are shown to the model in temporary messages.
 */
module ChatImages {
  import opened Common

  /** A content item; a field the item does not have is None. */
  datatype Item = Item(kind: string, name: Option<string>, mime: Option<string>, url: Option<string>, text: Option<string>)

  const STORED_FILE := "stored-file"
  const IMAGE_URL := "image_url"

  function StoredFile(name: string, mime: string): Item {
    Item(STORED_FILE, Some(name), Some(mime), None, None)
  }

  function ImageUrl(url: string): Item {
    Item(IMAGE_URL, None, None, Some(url), None)
  }

  datatype Content = Text(s: string) | Items(items: seq<Item>)

  datatype FileRef = FileRef(index: nat, fileName: string, mime: string)

  datatype Artifact = Artifact(kind: string, data: string)

  /** `additional_kwargs`; `others` stands for all keys besides the two used here. */
  datatype Kwargs = Kwargs(artifacts: Option<seq<Artifact>>, fileRefs: Option<seq<FileRef>>, others: map<string, string>)

  const NO_KWARGS := Kwargs(None, None, map[])

  datatype Message = Message(role: string, content: Content, kwargs: Option<Kwargs>, temporary: bool)

  /** The file name sanitizer (None where it throws) and the loader (a data URL, None where it throws). */
  datatype Env = Env(sanitize: string -> Option<string>, load: (string, string) -> Option<string>)

  ghost predicate SanitizeIdempotent(env: Env) {
    forall x: string | env.sanitize(x).Some? :: env.sanitize(env.sanitize(x).value) == env.sanitize(x)
  }

  // ---------- reverting base64 items to file references ----------

  function RefsOf(m: Message): seq<FileRef> {
    if m.kwargs.Some? && m.kwargs.value.fileRefs.Some? then m.kwargs.value.fileRefs.value else []
  }

  function ApplyRef(items: seq<Item>, ref: FileRef): seq<Item> {
    if ref.index < |items| && items[ref.index].kind == IMAGE_URL
    then items[ref.index := StoredFile(ref.fileName, ref.mime)] else items
  }

  function ApplyRefs(items: seq<Item>, refs: seq<FileRef>): seq<Item> {
    if refs == [] then items else ApplyRef(ApplyRefs(items, refs[..|refs| - 1]), refs[|refs| - 1])
  }

  /** The tracking key goes, and with it an object that has no other key. */
  function DropRefs(k: Option<Kwargs>): Option<Kwargs> {
    if k.None? then None
    else
      var k' := k.value.(fileRefs := None);
      if k' == NO_KWARGS then None else Some(k')
  }

  function Revert(m: Message): Message {
    if m.content.Items? && RefsOf(m) != []
    then m.(content := Items(ApplyRefs(m.content.items, RefsOf(m))), kwargs := DropRefs(m.kwargs))
    else m
  }

  /** A message that reverting leaves alone. */
  predicate Unreferenced(m: Message) {
    !(m.content.Items? && RefsOf(m) != [])
  }

  lemma RevertChanges(m: Message)
    ensures Revert(m) == m <==> Unreferenced(m)
  {
    if !Unreferenced(m) {
      assert RefsOf(Revert(m)) == [];
    }
  }

  function RevertAll(ms: seq<Message>): seq<Message> {
    if ms == [] then [] else [Revert(ms[0])] + RevertAll(ms[1..])
  }

  lemma {:induction false} RevertAllConcat(a: seq<Message>, b: seq<Message>)
    ensures RevertAll(a + b) == RevertAll(a) + RevertAll(b)
  {
    if a == [] {
      assert a + b == b;
    } else {
      assert (a + b)[1..] == a[1..] + b;
      RevertAllConcat(a[1..], b);
    }
  }

  lemma RevertAllNext(ms: seq<Message>, n: nat)
    requires n < |ms|
    ensures RevertAll(ms[..n + 1]) == RevertAll(ms[..n]) + [Revert(ms[n])]
  {
    assert ms[..n + 1] == ms[..n] + [ms[n]];
    RevertAllConcat(ms[..n], [ms[n]]);
    assert RevertAll([ms[n]]) == [Revert(ms[n])];
  }

  /** The loop over the file references of one message. */
  method RevertItems(items: seq<Item>, fileRefs: seq<FileRef>) returns (contentArray: seq<Item>)
    ensures contentArray == ApplyRefs(items, fileRefs)
  {
    contentArray := items;
    for r := 0 to |fileRefs|
      invariant contentArray == ApplyRefs(items, fileRefs[..r])
    {
      var ref := fileRefs[r];
      assert fileRefs[..r + 1][..r] == fileRefs[..r];
      if ref.index < |contentArray| && contentArray[ref.index].kind == IMAGE_URL {
        contentArray := contentArray[ref.index := StoredFile(ref.fileName, ref.mime)];
      }
    }
    assert fileRefs[..|fileRefs|] == fileRefs;
  }

  /** `revertBase64ImagesToFileRefs`. */
  method RevertBase64ImagesToFileRefs(messages: seq<Message>) returns (updatedMessages: seq<Message>)
    ensures updatedMessages == RevertAll(messages)
  {
    updatedMessages := [];
    for n := 0 to |messages|
      invariant updatedMessages == RevertAll(messages[..n])
    {
      var message := messages[n];
      var fileRefs := RefsOf(message);
      if message.content.Items? && |fileRefs| > 0 {
        var contentArray := RevertItems(message.content.items, fileRefs);
        message := message.(content := Items(contentArray), kwargs := DropRefs(message.kwargs));
      }
      RevertAllNext(messages, n);
      updatedMessages := updatedMessages + [message];
    }
    assert messages[..|messages|] == messages;
  }

  // ---------- stored files to base64 ----------

  predicate StartsWith(s: string, prefix: string) {
    prefix <= s
  }

  /** A loaded image: its sanitized file name, MIME type and data URL. */
  datatype Loaded = Loaded(fileName: string, mime: string, url: string)

  function LoadFile(env: Env, name: string, mime: string): Option<Loaded> {
    var fileName := env.sanitize(name);
    if fileName.None? then None
    else
      var url := env.load(fileName.value, mime);
      if url.None? then None else Some(Loaded(fileName.value, mime, url.value))
  }

  predicate IsStoredImage(item: Item) {
    item.kind == STORED_FILE && item.name.Some? && item.name.value != "" && item.mime.Some? && StartsWith(item.mime.value, "image/")
  }

  function LoadItems(env: Env, items: seq<Item>): seq<Loaded> {
    if items == [] then []
    else
      var front, last := LoadItems(env, items[..|items| - 1]), items[|items| - 1];
      if IsStoredImage(last) && LoadFile(env, last.name.value, last.mime.value).Some?
      then front + [LoadFile(env, last.name.value, last.mime.value).value] else front
  }

  /** The base64 items of loaded images, the references that lead back, and the items those lead to. */
  function Urls(ls: seq<Loaded>): seq<Item> {
    seq(|ls|, i requires 0 <= i < |ls| => ImageUrl(ls[i].url))
  }

  function Refs(ls: seq<Loaded>): seq<FileRef> {
    seq(|ls|, i requires 0 <= i < |ls| => FileRef(i, ls[i].fileName, ls[i].mime))
  }

  function Files(ls: seq<Loaded>): seq<Item> {
    seq(|ls|, i requires 0 <= i < |ls| => StoredFile(ls[i].fileName, ls[i].mime))
  }

  function ImagesOf(env: Env, m: Message): seq<Loaded> {
    if m.role == "user" && m.content.Items? then LoadItems(env, m.content.items) else []
  }

  function Process(env: Env, m: Message): Message {
    var ls := ImagesOf(env, m);
    if ls == [] then m
    else
      var k := if m.kwargs.Some? then m.kwargs.value else NO_KWARGS;
      m.(content := Items(Urls(ls)), kwargs := Some(k.(fileRefs := Some(Refs(ls)))))
  }

  function ProcessAll(env: Env, ms: seq<Message>): seq<Message> {
    seq(|ms|, i requires 0 <= i < |ms| => Process(env, ms[i]))
  }

  /** The messages that were transformed, in order. */
  function Transformed(env: Env, ms: seq<Message>): seq<Message> {
    if ms == [] then []
    else
      var front, last := Transformed(env, ms[..|ms| - 1]), ms[|ms| - 1];
      if ImagesOf(env, last) == [] then front else front + [last]
  }

  /** The loop over the content items of one message. */
  method LoadImages(items: seq<Item>, env: Env) returns (loaded: seq<Loaded>)
    ensures loaded == LoadItems(env, items)
  {
    loaded := [];
    for j := 0 to |items|
      invariant loaded == LoadItems(env, items[..j])
    {
      assert items[..j + 1][..j] == items[..j];
      if IsStoredImage(items[j]) {
        var file := LoadFile(env, items[j].name.value, items[j].mime.value);
        if file.Some? {
          loaded := loaded + [file.value];
        }
      }
    }
    assert items[..|items|] == items;
  }

  /** One turn of the loop over the messages. */
  method ProcessMessage(message: Message, env: Env) returns (updated: Message, touched: bool)
    ensures updated == Process(env, message) && touched == (ImagesOf(env, message) != [])
  {
    updated, touched := message, false;
    if message.role == "user" && message.content.Items? {
      var loaded := LoadImages(message.content.items, env);
      if |loaded| > 0 {
        var k := if message.kwargs.Some? then message.kwargs.value else NO_KWARGS;
        updated := message.(content := Items(Urls(loaded)), kwargs := Some(k.(fileRefs := Some(Refs(loaded)))));
        touched := true;
      }
    }
  }

  /** `processMessagesWithImages` for a flow and a chat that are known. */
  method ProcessMessagesWithImages(messages: seq<Message>, env: Env)
    returns (updatedMessages: seq<Message>, transformedMessages: seq<Message>)
    ensures updatedMessages == ProcessAll(env, messages)
    ensures transformedMessages == Transformed(env, messages)
  {
    updatedMessages, transformedMessages := messages, [];
    for i := 0 to |messages|
      invariant |updatedMessages| == |messages|
      invariant forall j | 0 <= j < i :: updatedMessages[j] == Process(env, messages[j])
      invariant forall j | i <= j < |messages| :: updatedMessages[j] == messages[j]
      invariant transformedMessages == Transformed(env, messages[..i])
    {
      assert messages[..i + 1][..i] == messages[..i];
      var updated, touched := ProcessMessage(updatedMessages[i], env);
      if touched {
        transformedMessages := transformedMessages + [messages[i]];
      }
      updatedMessages := updatedMessages[i := updated];
    }
    assert messages[..|messages|] == messages;
  }

  /** The references lead back to the stored files, whatever the images were. */
  lemma {:induction false} RefsLeadBack(ls: seq<Loaded>, n: nat)
    requires n <= |ls|
    ensures ApplyRefs(Urls(ls), Refs(ls)[..n]) == Files(ls)[..n] + Urls(ls)[n..]
  {
    if n > 0 {
      RefsLeadBack(ls, n - 1);
      assert Refs(ls)[..n][..n - 1] == Refs(ls)[..n - 1];
      assert Files(ls)[..n] == Files(ls)[..n - 1] + [Files(ls)[n - 1]];
    }
  }

  /** What processing and reverting a message leaves of it. */
  lemma RevertAfterProcess(env: Env, m: Message)
    ensures var ls := ImagesOf(env, m);
            Revert(Process(env, m)) == if ls == [] then Revert(m) else m.(content := Items(Files(ls)), kwargs := DropRefs(m.kwargs))
  {
    var ls := ImagesOf(env, m);
    if ls != [] {
      RefsLeadBack(ls, |ls|);
      assert Refs(ls)[..|ls|] == Refs(ls);
      assert Files(ls)[..|ls|] + Urls(ls)[|ls|..] == Files(ls);
    }
  }

  /** An item that comes back unchanged: an image with a clean name that could be loaded. */
  predicate Reversible(env: Env, item: Item) {
    && IsStoredImage(item) && item == StoredFile(item.name.value, item.mime.value)
    && env.sanitize(item.name.value) == Some(item.name.value)
    && env.load(item.name.value, item.mime.value).Some?
  }

  lemma ReversibleLast(env: Env, items: seq<Item>)
    requires items != []
    ensures var n := |items| - 1;
            (forall i | 0 <= i < |items| :: Reversible(env, items[i]))
            <==> (forall i | 0 <= i < n :: Reversible(env, items[..n][i])) && Reversible(env, items[n])
  {
    var n := |items| - 1;
    forall i | 0 <= i < n ensures items[..n][i] == items[i] { }
  }

  lemma {:induction false} FilesAreItems(env: Env, items: seq<Item>)
    ensures |LoadItems(env, items)| <= |items|
    ensures Files(LoadItems(env, items)) == items <==> forall i | 0 <= i < |items| :: Reversible(env, items[i])
  {
    if items != [] {
      var n := |items| - 1;
      var front, last := items[..n], items[n];
      FilesAreItems(env, front);
      assert items == front + [last];
      var ls := LoadItems(env, items);
      ReversibleLast(env, items);
      if |ls| == |items| {
        assert Files(ls)[..n] == Files(LoadItems(env, front));
        assert Files(ls) == Files(ls)[..n] + [Files(ls)[n]];
        assert Files(ls) == items <==> Files(ls)[..n] == front && Files(ls)[n] == last;
      } else {
        assert |Files(LoadItems(env, front))| == |LoadItems(env, front)|;
      }
    }
  }

  /**
    Exactly when the round trip through base64 restores a message: either it was not processed and
    its items, if any, come without references, or every item was a loadable image with a clean
    name and the metadata held no references before.
   */
  lemma ProcessRevertRoundTrip(env: Env, m: Message)
    ensures Revert(Process(env, m)) == m <==>
              if ImagesOf(env, m) == [] then Unreferenced(m)
              else && (forall i | 0 <= i < |m.content.items| :: Reversible(env, m.content.items[i]))
                   && m.kwargs == DropRefs(m.kwargs)
  {
    RevertAfterProcess(env, m);
    RevertChanges(m);
    if ImagesOf(env, m) != [] {
      FilesAreItems(env, m.content.items);
    }
  }

  // ---------- temporary messages for images of the assistant ----------

  const IMAGE_EXTENSIONS := ["png", "jpg", "jpeg", "gif", "webp"]
  const STORAGE_PREFIX := "FILE-STORAGE::"

  function Lower(s: string): string {
    seq(|s|, i requires 0 <= i < |s| => if 'A' <= s[i] <= 'Z' then ((s[i] as int) + 32) as char else s[i])
  }

  /** JavaScript's `replace` with a string: the first occurrence only. */
  function RemoveFirst(s: string, pat: string): string {
    if pat <= s then s[|pat|..] else if s == "" then "" else [s[0]] + RemoveFirst(s[1..], pat)
  }

  predicate IsImage(a: Artifact) {
    a.kind != "" && a.data != "" && Lower(a.kind) in IMAGE_EXTENSIONS
  }

  datatype Image = Image(name: string, mime: string)

  /** The images among the artifacts, or None if the sanitizer rejects one of them. */
  function ImageArtifacts(env: Env, arts: seq<Artifact>): Option<seq<Image>> {
    if arts == [] then Some([])
    else
      var front, last := ImageArtifacts(env, arts[..|arts| - 1]), arts[|arts| - 1];
      if front.None? then None
      else if !IsImage(last) then front
      else if env.sanitize(last.data).None? then None
      else Some(front.value + [Image(env.sanitize(last.data).value, "image/" + Lower(last.kind))])
  }

  function ArtifactsOf(m: Message): seq<Artifact> {
    if (m.role == "assistant" || m.role == "ai") && m.kwargs.Some? && m.kwargs.value.artifacts.Some?
    then m.kwargs.value.artifacts.value else []
  }

  predicate SameFile(image: Image, item: Item) {
    RemoveFirst(image.name, STORAGE_PREFIX) == if item.name.Some? then RemoveFirst(item.name.value, STORAGE_PREFIX) else ""
  }

  /** The next message already shows one of the images. */
  predicate AlreadyPresent(images: seq<Image>, next: Option<Message>) {
    && next.Some? && next.value.role == "user" && next.value.content.Items?
    && exists item | item in next.value.content.items ::
         (item.kind == STORED_FILE || item.kind == IMAGE_URL) && exists image | image in images :: SameFile(image, item)
  }

  function LoadAll(env: Env, images: seq<Image>): seq<Loaded> {
    if images == [] then []
    else
      var front, last := LoadAll(env, images[..|images| - 1]), images[|images| - 1];
      if LoadFile(env, last.name, last.mime).Some? then front + [LoadFile(env, last.name, last.mime).value] else front
  }

  function Temporary(ls: seq<Loaded>): Message {
    Message("user", Items(Urls(ls)), Some(NO_KWARGS.(fileRefs := Some(Refs(ls)))), true)
  }

  predicate Readable(env: Env, m: Message) {
    ImageArtifacts(env, ArtifactsOf(m)).Some?
  }

  /** The temporary message that belongs behind `m`, if any. */
  function Temp(env: Env, m: Message, next: Option<Message>): seq<Message>
    requires Readable(env, m)
  {
    var images := ImageArtifacts(env, ArtifactsOf(m)).value;
    if images == [] || AlreadyPresent(images, next) || LoadAll(env, images) == [] then []
    else [Temporary(LoadAll(env, images))]
  }

  predicate AllReadable(env: Env, ms: seq<Message>) {
    forall m | m in ms :: Readable(env, m)
  }

  function NextOf(ms: seq<Message>): Option<Message> {
    if |ms| > 1 then Some(ms[1]) else None
  }

  /** One pass: every message followed by its temporary message, if it has one. */
  function Interleave(env: Env, ms: seq<Message>): seq<Message>
    requires AllReadable(env, ms)
  {
    if ms == [] then []
    else [ms[0]] + Temp(env, ms[0], NextOf(ms)) + Interleave(env, ms[1..])
  }

  // ---------- insertions against old indices, applied in reverse ----------

  datatype Insertion = Insertion(index: nat, message: Message)

  function Splice(ms: seq<Message>, ins: Insertion): seq<Message> {
    if ins.index <= |ms| then ms[..ins.index] + [ins.message] + ms[ins.index..] else ms + [ins.message]
  }

  /** From the last insertion to the first. */
  function SpliceReverse(ms: seq<Message>, inserts: seq<Insertion>): seq<Message>
    decreases |inserts|
  {
    if inserts == [] then ms
    else SpliceReverse(Splice(ms, inserts[|inserts| - 1]), inserts[..|inserts| - 1])
  }

  /** The insertions for the messages `ms`, which start at index `at` of the list. */
  function Insertions(env: Env, ms: seq<Message>, at: nat): seq<Insertion>
    requires AllReadable(env, ms)
  {
    if ms == [] then []
    else
      var t := Temp(env, ms[0], NextOf(ms));
      (if t == [] then [] else [Insertion(at + 1, t[0])]) + Insertions(env, ms[1..], at + 1)
  }

  lemma {:induction false} SpliceReverseConcat(ms: seq<Message>, a: seq<Insertion>, b: seq<Insertion>)
    ensures SpliceReverse(ms, a + b) == SpliceReverse(SpliceReverse(ms, b), a)
    decreases |b|
  {
    if b == [] {
      assert a + b == a;
    } else {
      assert (a + b)[..|a + b| - 1] == a + b[..|b| - 1];
      SpliceReverseConcat(Splice(ms, b[|b| - 1]), a, b[..|b| - 1]);
    }
  }

  lemma Regroup<T>(a: seq<T>, b: seq<T>, c: seq<T>, d: seq<T>)
    ensures (a + b) + (c + d) == a + (b + c + d)
    ensures c == [] ==> (a + b) + d == a + (b + c + d)
  {
  }

  lemma SpliceOne(a: seq<Message>, m: Message, b: seq<Message>)
    ensures SpliceReverse(a + b, [Insertion(|a|, m)]) == a + ([m] + b)
  {
    var ins := [Insertion(|a|, m)];
    assert ins[..0] == [];
    assert (a + b)[..|a|] == a && (a + b)[|a|..] == b;
    assert SpliceReverse(Splice(a + b, ins[0]), []) == Splice(a + b, ins[0]);
  }

  /** Splicing in reverse against the old indices equals the one-pass interleaving. */
  lemma {:induction false} ReverseSplicingInterleaves(env: Env, done: seq<Message>, ms: seq<Message>)
    requires AllReadable(env, ms)
    ensures SpliceReverse(done + ms, Insertions(env, ms, |done|)) == done + Interleave(env, ms)
    decreases |ms|
  {
    if ms == [] {
      assert done + ms == done;
    } else {
      var t := Temp(env, ms[0], NextOf(ms));
      var done' := done + [ms[0]];
      var rest := Insertions(env, ms[1..], |done| + 1);
      var tail := Interleave(env, ms[1..]);
      assert done' + ms[1..] == done + ms;
      ReverseSplicingInterleaves(env, done', ms[1..]);
      Regroup(done, [ms[0]], t, tail);
      if t == [] {
        assert [] + rest == rest;
      } else {
        SpliceReverseConcat(done + ms, [Insertion(|done'|, t[0])], rest);
        SpliceOne(done', t[0], tail);
        assert t == [t[0]];
      }
    }
  }

  /** The loop over the artifacts of one message; None where the sanitizer throws. */
  method CollectImages(arts: seq<Artifact>, env: Env) returns (images: Option<seq<Image>>)
    ensures images == ImageArtifacts(env, arts)
  {
    var list: seq<Image> := [];
    for j := 0 to |arts|
      invariant ImageArtifacts(env, arts[..j]) == Some(list)
    {
      assert arts[..j + 1][..j] == arts[..j];
      if IsImage(arts[j]) {
        var name := env.sanitize(arts[j].data);
        if name.None? {
          NoneStays(env, arts, j + 1);
          return None;
        }
        list := list + [Image(name.value, "image/" + Lower(arts[j].kind))];
      }
    }
    assert arts[..|arts|] == arts;
    images := Some(list);
  }

  lemma {:induction false} NoneStays(env: Env, arts: seq<Artifact>, n: nat)
    requires n <= |arts| && ImageArtifacts(env, arts[..n]).None?
    ensures ImageArtifacts(env, arts).None?
    decreases |arts| - n
  {
    if n < |arts| {
      assert arts[..n + 1][..n] == arts[..n];
      NoneStays(env, arts, n + 1);
    } else {
      assert arts[..n] == arts;
    }
  }

  /** The loop that loads the images of one message. */
  method LoadArtifacts(images: seq<Image>, env: Env) returns (loaded: seq<Loaded>)
    ensures loaded == LoadAll(env, images)
  {
    loaded := [];
    for j := 0 to |images|
      invariant loaded == LoadAll(env, images[..j])
    {
      assert images[..j + 1][..j] == images[..j];
      var file := LoadFile(env, images[j].name, images[j].mime);
      if file.Some? {
        loaded := loaded + [file.value];
      }
    }
    assert images[..|images|] == images;
  }

  /** One turn of the first loop: the temporary message for `message`, None where the sanitizer throws. */
  method TemporaryFor(message: Message, next: Option<Message>, env: Env) returns (temp: Option<seq<Message>>)
    ensures temp.Some? == Readable(env, message)
    ensures temp.Some? ==> temp.value == Temp(env, message, next)
  {
    var images := CollectImages(ArtifactsOf(message), env);
    if images.None? { return None; }
    if images.value == [] || AlreadyPresent(images.value, next) { return Some([]); }
    var loaded := LoadArtifacts(images.value, env);
    temp := Some(if |loaded| > 0 then [Temporary(loaded)] else []);
  }

  /** What the first loop has collected before message `i`. */
  ghost predicate Collected(env: Env, ms: seq<Message>, i: nat, sofar: seq<Insertion>)
    requires i <= |ms|
  {
    AllReadable(env, ms) ==> sofar + Insertions(env, ms[i..], i) == Insertions(env, ms, 0)
  }

  lemma CollectStep(env: Env, ms: seq<Message>, i: nat, sofar: seq<Insertion>)
    requires i < |ms| && Collected(env, ms, i, sofar)
    ensures Readable(env, ms[i]) ==>
              var t := Temp(env, ms[i], NextOf(ms[i..]));
              Collected(env, ms, i + 1, if t == [] then sofar else sofar + [Insertion(i + 1, t[0])])
  {
    if AllReadable(env, ms) {
      var t := Temp(env, ms[i], NextOf(ms[i..]));
      assert ms[i..][0] == ms[i] && ms[i..][1..] == ms[i + 1..];
      var ins, rest := if t == [] then [] else [Insertion(i + 1, t[0])], Insertions(env, ms[i + 1..], i + 1);
      assert Insertions(env, ms[i..], i) == ins + rest;
      InsertionsRegroup(sofar, ins, rest);
    }
  }

  lemma InsertionsRegroup(a: seq<Insertion>, b: seq<Insertion>, c: seq<Insertion>)
    ensures a + (b + c) == (a + b) + c && a + [] == a
  {
  }

  /** The first loop: what to insert and where, by the indices before any insertion. */
  method CollectInsertions(messages: seq<Message>, env: Env) returns (inserts: Option<seq<Insertion>>)
    ensures inserts.Some? == AllReadable(env, messages)
    ensures inserts.Some? ==> inserts.value == Insertions(env, messages, 0)
  {
    var messagesToInsert: seq<Insertion> := [];
    assert messages[0..] == messages;
    for i := 0 to |messages|
      invariant forall j | 0 <= j < i :: Readable(env, messages[j])
      invariant Collected(env, messages, i, messagesToInsert)
    {
      var next := if i + 1 < |messages| then Some(messages[i + 1]) else None;
      assert next == NextOf(messages[i..]);
      CollectStep(env, messages, i, messagesToInsert);
      var temp := TemporaryFor(messages[i], next, env);
      if temp.None? {
        return None;
      }
      if temp.value != [] {
        messagesToInsert := messagesToInsert + [Insertion(i + 1, temp.value[0])];
      }
    }
    assert AllReadable(env, messages);
    inserts := Some(messagesToInsert);
  }

  /** The message list of a model call, which `addImageArtifactsToMessages` changes in place. */
  class History {
    var messages: seq<Message>

    constructor (messages: seq<Message>)
      ensures this.messages == messages
    {
      this.messages := messages;
    }

    /** The second loop. */
    method InsertInReverse(messagesToInsert: seq<Insertion>)
      modifies this
      ensures messages == SpliceReverse(old(messages), messagesToInsert)
    {
      var n := |messagesToInsert|;
      assert messagesToInsert[..n] == messagesToInsert;
      while n > 0
        invariant 0 <= n <= |messagesToInsert|
        invariant SpliceReverse(messages, messagesToInsert[..n]) == SpliceReverse(old(messages), messagesToInsert)
      {
        assert messagesToInsert[..n][..n - 1] == messagesToInsert[..n - 1];
        messages := Splice(messages, messagesToInsert[n - 1]);
        n := n - 1;
      }
    }

    /** `addImageArtifactsToMessages`; `ok` is false where it throws. */
    method AddImageArtifacts(env: Env) returns (ok: bool)
      modifies this
      ensures ok == AllReadable(env, old(messages))
      ensures messages == if ok then Interleave(env, old(messages)) else old(messages)
    {
      var inserts := CollectInsertions(messages, env);
      ok := inserts.Some?;
      if ok {
        ReverseSplicingInterleaves(env, [], messages);
        assert [] + messages == messages && [] + Interleave(env, messages) == Interleave(env, messages);
        InsertInReverse(inserts.value);
      }
    }
  }

  // ---------- what the insertions keep ----------

  /** The messages without the temporary ones. */
  function DropTemporary(ms: seq<Message>): seq<Message> {
    if ms == [] then [] else (if ms[0].temporary then [] else [ms[0]]) + DropTemporary(ms[1..])
  }

  lemma {:induction false} DropConcat(a: seq<Message>, b: seq<Message>)
    ensures DropTemporary(a + b) == DropTemporary(a) + DropTemporary(b)
  {
    if a == [] {
      assert a + b == b;
    } else {
      assert (a + b)[1..] == a[1..] + b;
      DropConcat(a[1..], b);
    }
  }

  lemma DropBehind(m: Message, t: seq<Message>, rest: seq<Message>)
    requires !m.temporary && |t| <= 1 && forall x | x in t :: x.temporary
    ensures DropTemporary([m] + t + rest) == [m] + DropTemporary(rest)
  {
    assert ([m] + t + rest)[1..] == t + rest;
    if t == [] {
      assert t + rest == rest;
    } else {
      assert t[0] in t && (t + rest)[1..] == rest;
    }
  }

  /** Dropping the temporary messages restores the list. */
  lemma {:induction false} DropRestores(env: Env, ms: seq<Message>)
    requires AllReadable(env, ms) && forall m | m in ms :: !m.temporary
    ensures DropTemporary(Interleave(env, ms)) == ms
  {
    if ms != [] {
      DropRestores(env, ms[1..]);
      DropBehind(ms[0], Temp(env, ms[0], NextOf(ms)), Interleave(env, ms[1..]));
      assert ms == [ms[0]] + ms[1..];
    }
  }

  /** The temporary message of some images, once reverted, shows one of them. */
  lemma {:induction false} LoadedAreImages(env: Env, images: seq<Image>)
    ensures forall l | l in LoadAll(env, images) :: exists image | image in images :: LoadFile(env, image.name, image.mime) == Some(l)
  {
    if images != [] {
      LoadedAreImages(env, images[..|images| - 1]);
    }
  }

  lemma {:induction false} NamesAreClean(env: Env, arts: seq<Artifact>)
    requires SanitizeIdempotent(env) && ImageArtifacts(env, arts).Some?
    ensures forall image | image in ImageArtifacts(env, arts).value :: env.sanitize(image.name) == Some(image.name)
  {
    if arts != [] {
      NamesAreClean(env, arts[..|arts| - 1]);
    }
  }

  lemma RevertedTemporary(ls: seq<Loaded>)
    requires ls != []
    ensures Revert(Temporary(ls)) == Message("user", Items(Files(ls)), None, true)
  {
    RefsLeadBack(ls, |ls|);
    assert Refs(ls)[..|ls|] == Refs(ls);
    assert Files(ls)[..|ls|] + Urls(ls)[|ls|..] == Files(ls);
  }

  /** Behind a message whose temporary message has been reverted there is nothing to insert. */
  lemma NothingBehindReverted(env: Env, m: Message, next: Option<Message>)
    requires SanitizeIdempotent(env) && Readable(env, m) && Temp(env, m, next) != []
    ensures Temp(env, m, Some(Revert(Temp(env, m, next)[0]))) == []
  {
    var images := ImageArtifacts(env, ArtifactsOf(m)).value;
    var ls := LoadAll(env, images);
    var shown := Revert(Temp(env, m, next)[0]);
    RevertedTemporary(ls);
    LoadedAreImages(env, images);
    NamesAreClean(env, ArtifactsOf(m));
    var l := ls[0];
    assert l in ls;
    var image :| image in images && LoadFile(env, image.name, image.mime) == Some(l);
    var item := Files(ls)[0];
    assert item in shown.content.items;
    assert SameFile(image, item);
    assert AlreadyPresent(images, Some(shown));
  }

  function Images(env: Env, m: Message): seq<Image>
    requires Readable(env, m)
  {
    ImageArtifacts(env, ArtifactsOf(m)).value
  }

  function RevertNext(next: Option<Message>): Option<Message> {
    if next.None? then None else Some(Revert(next.value))
  }

  /** Reverting the next message does not hide images of this one that it showed and that can be loaded. */
  predicate StaysShown(env: Env, m: Message, next: Option<Message>)
    requires Readable(env, m)
  {
    AlreadyPresent(Images(env, m), next) && LoadAll(env, Images(env, m)) != [] ==> AlreadyPresent(Images(env, m), RevertNext(next))
  }

  predicate AllStayShown(env: Env, ms: seq<Message>)
    requires AllReadable(env, ms)
  {
    ms == [] || (StaysShown(env, ms[0], NextOf(ms)) && AllStayShown(env, ms[1..]))
  }

  /** Where nothing was inserted nothing is inserted after reverting, exactly if what was shown stays so. */
  lemma TempAfterRevert(env: Env, m: Message, next: Option<Message>)
    requires Readable(env, m)
    ensures Readable(env, Revert(m)) && ArtifactsOf(Revert(m)) == ArtifactsOf(m)
    ensures Temp(env, m, next) == [] ==> (Temp(env, Revert(m), RevertNext(next)) == [] <==> StaysShown(env, m, next))
    ensures Temp(env, m, next) != [] ==> StaysShown(env, m, next)
  {
  }

  lemma {:induction false} InterleaveGrows(env: Env, ms: seq<Message>)
    requires AllReadable(env, ms)
    ensures |Interleave(env, ms)| >= |ms|
  {
    if ms != [] {
      InterleaveGrows(env, ms[1..]);
    }
  }

  function HeadOf(ms: seq<Message>): Option<Message> {
    if ms == [] then None else Some(ms[0])
  }

  /** Nothing is inserted into a list exactly if nothing is behind its first message and nothing into the rest. */
  lemma NothingInserted(env: Env, m: Message, rest: seq<Message>)
    requires Readable(env, m) && AllReadable(env, rest)
    ensures AllReadable(env, [m] + rest)
    ensures Interleave(env, [m] + rest) == [m] + rest
            <==> Temp(env, m, HeadOf(rest)) == [] && Interleave(env, rest) == rest
  {
    var all := [m] + rest;
    assert all[1..] == rest && NextOf(all) == HeadOf(rest);
    var t, i := Temp(env, m, HeadOf(rest)), Interleave(env, rest);
    assert Interleave(env, all) == [m] + t + i;
    InterleaveGrows(env, rest);
    if t == [] {
      assert [m] + t + i == [m] + i;
      assert [m] + i == [m] + rest <==> i == rest by {
        assert ([m] + i)[1..] == i && ([m] + rest)[1..] == rest;
      }
    }
  }

  /**
    Adding, reverting and adding again inserts nothing the second time, exactly if reverting
    hides no image that a message showed before.
   */
  lemma {:induction false} SecondAddInsertsNothing(env: Env, ms: seq<Message>)
    requires SanitizeIdempotent(env) && AllReadable(env, ms)
    ensures var stored := RevertAll(Interleave(env, ms));
            && HeadOf(stored) == RevertNext(HeadOf(ms))
            && AllReadable(env, stored)
            && (Interleave(env, stored) == stored <==> AllStayShown(env, ms))
  {
    if ms != [] {
      var t := Temp(env, ms[0], NextOf(ms));
      var rest := RevertAll(Interleave(env, ms[1..]));
      SecondAddInsertsNothing(env, ms[1..]);
      assert HeadOf(rest) == RevertNext(NextOf(ms));
      StoredParts(env, ms);
      TempAfterRevert(env, ms[0], NextOf(ms));
      if t == [] {
        NothingInserted(env, Revert(ms[0]), rest);
      } else {
        SecondAddBehindTemporary(env, ms[0], NextOf(ms), rest);
      }
    }
  }

  /** The list as it is stored, from its first message on. */
  lemma StoredParts(env: Env, ms: seq<Message>)
    requires AllReadable(env, ms) && ms != []
    ensures var t, rest := Temp(env, ms[0], NextOf(ms)), RevertAll(Interleave(env, ms[1..]));
            RevertAll(Interleave(env, ms)) == [Revert(ms[0])] + (if t == [] then rest else [Revert(t[0])] + rest)
  {
    var t := Temp(env, ms[0], NextOf(ms));
    RevertAllConcat([ms[0]] + t, Interleave(env, ms[1..]));
    RevertAllConcat([ms[0]], t);
    assert [ms[0]][1..] == [] && RevertAll([ms[0]]) == [Revert(ms[0])];
    if t != [] {
      assert t[1..] == [] && RevertAll(t) == [Revert(t[0])];
    }
  }

  lemma SecondAddBehindTemporary(env: Env, m: Message, next: Option<Message>, rest: seq<Message>)
    requires SanitizeIdempotent(env) && Readable(env, m) && AllReadable(env, rest) && Temp(env, m, next) != []
    ensures var all := [Revert(m)] + ([Revert(Temp(env, m, next)[0])] + rest);
            AllReadable(env, all) && (Interleave(env, all) == all <==> Interleave(env, rest) == rest)
  {
    var shown := Revert(Temp(env, m, next)[0]);
    NothingBehindReverted(env, m, next);
    TempAfterRevert(env, m, next);
    ShownIsReadable(env, m, next, rest);
    NothingInserted(env, shown, rest);
    NothingInserted(env, Revert(m), [shown] + rest);
  }

  lemma ShownIsReadable(env: Env, m: Message, next: Option<Message>, rest: seq<Message>)
    requires Readable(env, m) && Temp(env, m, next) != []
    ensures var shown := Revert(Temp(env, m, next)[0]); Readable(env, shown) && Temp(env, shown, HeadOf(rest)) == []
  {
    RevertedTemporary(LoadAll(env, Images(env, m)));
  }

  // ---------- lists with processed messages ----------

  /** Items of a processed message have no names, so it shows an image only if the name of one is empty but for the prefix. */
  lemma ProcessedShows(env: Env, images: seq<Image>, n: Message)
    requires ImagesOf(env, n) != []
    ensures AlreadyPresent(images, Some(Process(env, n))) <==> exists image | image in images :: RemoveFirst(image.name, STORAGE_PREFIX) == ""
  {
    var ls, items := ImagesOf(env, n), Urls(ImagesOf(env, n));
    assert Process(env, n).content == Items(items);
    if image :| image in images && RemoveFirst(image.name, STORAGE_PREFIX) == "" {
      assert items[0] in items && SameFile(image, items[0]);
    }
  }

  /** Every image of the assistant has a name besides the prefix. */
  predicate ImagesNamed(env: Env, ms: seq<Message>)
    requires AllReadable(env, ms)
  {
    forall m, image | m in ms && image in Images(env, m) :: RemoveFirst(image.name, STORAGE_PREFIX) != ""
  }

  lemma ProcessKeepsArtifacts(env: Env, m: Message)
    ensures ArtifactsOf(Process(env, m)) == ArtifactsOf(m)
    ensures Readable(env, m) ==> Readable(env, Process(env, m)) && Images(env, Process(env, m)) == Images(env, m)
  {
  }

  lemma {:induction false} ProcessedStayShown(env: Env, ms: seq<Message>)
    requires AllReadable(env, ms) && ImagesNamed(env, ms)
    requires forall m | m in ms :: ImagesOf(env, m) == [] ==> Unreferenced(m)
    ensures AllReadable(env, ProcessAll(env, ms)) && AllStayShown(env, ProcessAll(env, ms))
  {
    forall m | m in ProcessAll(env, ms) ensures Readable(env, m) {
      var i :| 0 <= i < |ms| && m == Process(env, ms[i]);
      ProcessKeepsArtifacts(env, ms[i]);
    }
    if ms != [] {
      ProcessedStayShown(env, ms[1..]);
      assert ProcessAll(env, ms)[1..] == ProcessAll(env, ms[1..]);
      ProcessKeepsArtifacts(env, ms[0]);
      if |ms| > 1 {
        assert ms[0] in ms && ms[1] in ms;
        RevertChanges(ms[1]);
        if ImagesOf(env, ms[1]) != [] {
          ProcessedShows(env, Images(env, ms[0]), ms[1]);
        }
      }
    }
  }

  /** So for the list of a model call, whose stored images have been turned to base64 before the images of the assistant are added. */
  lemma SecondAddAfterProcessing(env: Env, ms: seq<Message>)
    requires SanitizeIdempotent(env) && AllReadable(env, ms) && ImagesNamed(env, ms)
    requires forall m | m in ms :: ImagesOf(env, m) == [] ==> Unreferenced(m)
    ensures AllReadable(env, ProcessAll(env, ms))
    ensures var stored := RevertAll(Interleave(env, ProcessAll(env, ms)));
            AllReadable(env, stored) && Interleave(env, stored) == stored
  {
    ProcessedStayShown(env, ms);
    SecondAddInsertsNothing(env, ProcessAll(env, ms));
  }

  // ---------- an input for which a second add inserts ----------

  const PLAIN_ENV := Env(x => Some(x), (name, mime) => Some("data:"))

  /** An image_url item that names the image but whose reference leads to another file: reverting hides it. */
  function HiddenByRevert(): seq<Message> {
    [Message("assistant", Text(""), Some(NO_KWARGS.(artifacts := Some([Artifact("png", "a")]))), false),
     Message("user", Items([Item(IMAGE_URL, Some("a"), None, Some("data:"), None)]),
             Some(NO_KWARGS.(fileRefs := Some([FileRef(0, "b", "image/png")]))), false)]
  }

  lemma HiddenImageIsAddedAgain()
    ensures var ms := HiddenByRevert();
            && SanitizeIdempotent(PLAIN_ENV) && AllReadable(PLAIN_ENV, ms) && Interleave(PLAIN_ENV, ms) == ms
            && var stored := RevertAll(ms); AllReadable(PLAIN_ENV, stored) && Interleave(PLAIN_ENV, stored) != stored
  {
    var ms := HiddenByRevert();
    HiddenShown();
    NothingInserted(PLAIN_ENV, ms[0], [ms[1]]);
    NothingInserted(PLAIN_ENV, ms[1], []);
    assert [ms[1]] + [] == [ms[1]] && ms == [ms[0]] + [ms[1]];
    SecondAddInsertsNothing(PLAIN_ENV, ms);
  }

  lemma HiddenShown()
    ensures var ms := HiddenByRevert();
            && Readable(PLAIN_ENV, ms[0]) && Readable(PLAIN_ENV, ms[1])
            && Temp(PLAIN_ENV, ms[0], Some(ms[1])) == [] && Temp(PLAIN_ENV, ms[1], None) == []
            && !StaysShown(PLAIN_ENV, ms[0], Some(ms[1]))
  {
    var ms := HiddenByRevert();
    var image := Image("a", "image/png");
    HiddenImages();
    assert AlreadyPresent([image], Some(ms[1])) by {
      var item := ms[1].content.items[0];
      assert item in ms[1].content.items && image in [image] && SameFile(image, item);
    }
    var back := Revert(ms[1]);
    var items, refs := ms[1].content.items, [FileRef(0, "b", "image/png")];
    assert RefsOf(ms[1]) == refs && refs[..0] == [] && ApplyRefs(items, []) == items;
    assert ApplyRefs(items, refs) == ApplyRef(items, refs[0]) == [StoredFile("b", "image/png")];
    assert back.content == Items([StoredFile("b", "image/png")]);
    assert RemoveFirst("a", STORAGE_PREFIX) == "a" && RemoveFirst("b", STORAGE_PREFIX) == "b" by {
      assert "a"[1..] == "" && "b"[1..] == "";
    }
    assert !SameFile(image, StoredFile("b", "image/png"));
  }

  lemma HiddenImages()
    ensures var ms := HiddenByRevert();
            && Readable(PLAIN_ENV, ms[0]) && Images(PLAIN_ENV, ms[0]) == [Image("a", "image/png")]
            && Readable(PLAIN_ENV, ms[1]) && Images(PLAIN_ENV, ms[1]) == []
            && LoadAll(PLAIN_ENV, Images(PLAIN_ENV, ms[0])) != []
  {
    var arts := [Artifact("png", "a")];
    assert arts[..0] == [] && Lower("png") == "png" && "png" == IMAGE_EXTENSIONS[0];
    assert IsImage(arts[0]);
    assert ArtifactsOf(HiddenByRevert()[0]) == arts && ArtifactsOf(HiddenByRevert()[1]) == [];
    assert "image/" + "png" == "image/png";
    var images := [Image("a", "image/png")];
    assert images[..0] == [];
  }
}
