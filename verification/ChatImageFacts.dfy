/**
  What the image operations on the chat history do to a single message, item by item: which
  items become base64 and with which references, which of them come back as which files, and
  what a temporary message shows.
 */
module ChatImageFacts {
  import opened Common
  import opened ChatImages

  // ---------- picking from a list ----------

  /** `at` are the flagged places, in order. */
  ghost predicate Picks(flags: seq<bool>, at: seq<nat>) {
    && (forall k | 0 <= k < |at| :: at[k] < |flags|)
    && (forall k, l | 0 <= k < l < |at| :: at[k] < at[l])
    && (forall i: nat | i < |flags| :: i in at <==> flags[i])
  }

  lemma PickNext(flags: seq<bool>, at: seq<nat>, flag: bool)
    requires Picks(flags, at)
    ensures Picks(flags + [flag], at + if flag then [|flags|] else [])
  {
    assert |flags| !in at;
  }

  function Flags<T>(s: seq<T>, f: T -> bool): seq<bool> {
    seq(|s|, i requires 0 <= i < |s| => f(s[i]))
  }

  lemma FlagsNext<T>(s: seq<T>, f: T -> bool)
    requires s != []
    ensures Flags(s, f) == Flags(s[..|s| - 1], f) + [f(s[|s| - 1])]
  {
  }

  // ---------- stored files to base64 ----------

  /** A stored file that is an image and can be loaded under its clean name. */
  predicate Loads(env: Env, item: Item) {
    && item.kind == "stored-file" && item.name.Some? && item.name.value != "" && item.mime.Some? && "image/" <= item.mime.value
    && env.sanitize(item.name.value).Some? && env.load(env.sanitize(item.name.value).value, item.mime.value).Some?
  }

  /** What loading such an item gives. */
  predicate LoadedFrom(env: Env, item: Item, l: Loaded) {
    && Loads(env, item)
    && l == Loaded(env.sanitize(item.name.value).value, item.mime.value,
                   env.load(env.sanitize(item.name.value).value, item.mime.value).value)
  }

  /** The loaded images are those of the items that load, in order. */
  lemma {:induction false} LoadItemsMean(env: Env, items: seq<Item>) returns (at: seq<nat>)
    ensures Picks(Flags(items, (x: Item) => Loads(env, x)), at) && |at| == |LoadItems(env, items)|
    ensures forall k | 0 <= k < |at| :: at[k] < |items| && LoadedFrom(env, items[at[k]], LoadItems(env, items)[k])
  {
    at := [];
    if items != [] {
      var n := |items| - 1;
      var f := (x: Item) => Loads(env, x);
      at := LoadItemsMean(env, items[..n]);
      FlagsNext(items, f);
      PickNext(Flags(items[..n], f), at, f(items[n]));
      at := at + if f(items[n]) then [n] else [];
    }
  }

  /** What stands at place `k` of the content, and in the references, of a processed message. */
  ghost predicate ShownAs(env: Env, item: Item, k: nat, shown: Item, ref: FileRef) {
    exists l: Loaded :: LoadedFrom(env, item, l)
      && shown == Item("image_url", None, None, Some(l.url), None) && ref == FileRef(k, l.fileName, l.mime)
  }

  /**
    Only a user message with items that load is changed. Its content becomes the images of these
    items, in order, with one reference each to the clean file name; role, flag and all other
    metadata stay.
   */
  lemma ProcessMeans(env: Env, m: Message) returns (at: seq<nat>)
    ensures m.role != "user" || m.content.Text? ==> Process(env, m) == m
    ensures m.role == "user" && m.content.Items? ==>
              var p := Process(env, m);
              && Picks(Flags(m.content.items, (x: Item) => Loads(env, x)), at)
              && (at == [] ==> p == m)
              && (at != [] ==>
                    && p.role == "user" && p.temporary == m.temporary
                    && p.content.Items? && |p.content.items| == |at|
                    && p.kwargs.Some? && p.kwargs.value.fileRefs.Some? && |p.kwargs.value.fileRefs.value| == |at|
                    && p.kwargs.value.artifacts == (if m.kwargs.Some? then m.kwargs.value.artifacts else None)
                    && p.kwargs.value.others == (if m.kwargs.Some? then m.kwargs.value.others else map[])
                    && forall k | 0 <= k < |at| ::
                         at[k] < |m.content.items| && ShownAs(env, m.content.items[at[k]], k, p.content.items[k], p.kwargs.value.fileRefs.value[k]))
  {
    at := [];
    if m.role == "user" && m.content.Items? {
      at := LoadItemsMean(env, m.content.items);
      var ls := ImagesOf(env, m);
      forall k | 0 <= k < |at| ensures ShownAs(env, m.content.items[at[k]], k, Urls(ls)[k], Refs(ls)[k]) {
        assert LoadedFrom(env, m.content.items[at[k]], ls[k]);
      }
    }
  }

  /** The messages returned beside the list are the originals of the changed ones, in order. */
  lemma {:induction false} TransformedMean(env: Env, ms: seq<Message>) returns (at: seq<nat>)
    ensures Picks(Flags(ms, (m: Message) => ImagesOf(env, m) != []), at) && |at| == |Transformed(env, ms)|
    ensures forall k | 0 <= k < |at| :: at[k] < |ms| && Transformed(env, ms)[k] == ms[at[k]]
  {
    at := [];
    if ms != [] {
      var n := |ms| - 1;
      var f := (m: Message) => ImagesOf(env, m) != [];
      at := TransformedMean(env, ms[..n]);
      FlagsNext(ms, f);
      PickNext(Flags(ms[..n], f), at, f(ms[n]));
      at := at + if f(ms[n]) then [n] else [];
    }
  }

  // ---------- and back ----------

  /** The first reference to a place. */
  ghost predicate FirstRef(refs: seq<FileRef>, i: nat, r: nat) {
    r < |refs| && refs[r].index == i && forall q | 0 <= q < r :: refs[q].index != i
  }

  /** Item by item: an image with a reference becomes the file of the first one to its place, everything else stays. */
  lemma {:induction false} ApplyRefsMean(items: seq<Item>, refs: seq<FileRef>, i: nat)
    requires i < |items|
    ensures |ApplyRefs(items, refs)| == |items|
    ensures (items[i].kind != "image_url" || forall r | 0 <= r < |refs| :: refs[r].index != i) ==> ApplyRefs(items, refs)[i] == items[i]
    ensures forall r: nat | items[i].kind == "image_url" && FirstRef(refs, i, r) ::
              ApplyRefs(items, refs)[i] == Item("stored-file", Some(refs[r].fileName), Some(refs[r].mime), None, None)
  {
    if refs != [] {
      var n := |refs| - 1;
      ApplyRefsMean(items, refs[..n], i);
      forall r: nat | items[i].kind == "image_url" && FirstRef(refs, i, r)
        ensures ApplyRefs(items, refs)[i] == Item("stored-file", Some(refs[r].fileName), Some(refs[r].mime), None, None)
      {
        if r < n {
          assert FirstRef(refs[..n], i, r);
        } else {
          assert forall q | 0 <= q < n :: refs[..n][q] == refs[q];
        }
      }
    }
  }

  /** Reverting a message with references changes its items like that and drops the references, with metadata that is then empty. */
  lemma RevertMeans(m: Message)
    ensures m.content.Items? && m.kwargs.Some? && m.kwargs.value.fileRefs.Some? && m.kwargs.value.fileRefs.value != [] ==>
              var k := m.kwargs.value;
              && Revert(m).role == m.role && Revert(m).temporary == m.temporary
              && Revert(m).content == Items(ApplyRefs(m.content.items, k.fileRefs.value))
              && Revert(m).kwargs == if k.artifacts == None && k.others == map[] then None else Some(Kwargs(k.artifacts, None, k.others))
    ensures !(m.content.Items? && m.kwargs.Some? && m.kwargs.value.fileRefs.Some? && m.kwargs.value.fileRefs.value != []) ==> Revert(m) == m
  {
  }

  // ---------- images of the assistant ----------

  /** Letters of the alphabet in lower case, all other characters as they are. */
  lemma LowerMeans(s: string, i: nat)
    requires i < |s|
    ensures |Lower(s)| == |s|
    ensures 'A' <= s[i] <= 'Z' ==> Lower(s)[i] - 'a' == s[i] - 'A' && 'a' <= Lower(s)[i] <= 'z'
    ensures !('A' <= s[i] <= 'Z') ==> Lower(s)[i] == s[i]
  {
  }

  /** Only an assistant's message has artifacts, and only those of five types, in any case, are images. */
  lemma ArtifactsMean(m: Message, a: Artifact)
    ensures (m.role == "assistant" || m.role == "ai") && m.kwargs.Some? && m.kwargs.value.artifacts.Some? ==>
              ArtifactsOf(m) == m.kwargs.value.artifacts.value
    ensures !((m.role == "assistant" || m.role == "ai") && m.kwargs.Some? && m.kwargs.value.artifacts.Some?) ==> ArtifactsOf(m) == []
    ensures IsImage(a) <==>
              && a.data != ""
              && (Lower(a.kind) == "png" || Lower(a.kind) == "jpg" || Lower(a.kind) == "jpeg" || Lower(a.kind) == "gif" || Lower(a.kind) == "webp")
  {
    if a.kind == "" { assert Lower(a.kind) == ""; }
  }

  /** The images of a list of artifacts, in order; there is none if the sanitizer rejects any of them. */
  lemma {:induction false} ImageArtifactsMean(env: Env, arts: seq<Artifact>) returns (at: seq<nat>)
    ensures ImageArtifacts(env, arts).None? <==> exists a :: a in arts && IsImage(a) && env.sanitize(a.data).None?
    ensures ImageArtifacts(env, arts).Some? ==>
              && Picks(Flags(arts, (a: Artifact) => IsImage(a)), at) && |at| == |ImageArtifacts(env, arts).value|
              && forall k | 0 <= k < |at| ::
                   at[k] < |arts| && env.sanitize(arts[at[k]].data).Some?
                   && ImageArtifacts(env, arts).value[k] == Image(env.sanitize(arts[at[k]].data).value, "image/" + Lower(arts[at[k]].kind))
  {
    at := [];
    if arts != [] {
      var n := |arts| - 1;
      var f := (a: Artifact) => IsImage(a);
      at := ImageArtifactsMean(env, arts[..n]);
      assert arts == arts[..n] + [arts[n]];
      if ImageArtifacts(env, arts).Some? {
        FlagsNext(arts, f);
        PickNext(Flags(arts[..n], f), at, f(arts[n]));
      }
      at := at + if f(arts[n]) then [n] else [];
    }
  }

  /** An image that can be loaded under the clean form of its name. */
  predicate ImageLoads(env: Env, x: Image) {
    env.sanitize(x.name).Some? && env.load(env.sanitize(x.name).value, x.mime).Some?
  }

  lemma {:induction false} LoadAllMean(env: Env, images: seq<Image>) returns (at: seq<nat>)
    ensures Picks(Flags(images, (x: Image) => ImageLoads(env, x)), at) && |at| == |LoadAll(env, images)|
    ensures forall k | 0 <= k < |at| :: at[k] < |images| && ImageLoads(env, images[at[k]])
              && LoadAll(env, images)[k]
                 == Loaded(env.sanitize(images[at[k]].name).value, images[at[k]].mime,
                           env.load(env.sanitize(images[at[k]].name).value, images[at[k]].mime).value)
  {
    at := [];
    if images != [] {
      var n := |images| - 1;
      var f := (x: Image) => ImageLoads(env, x);
      at := LoadAllMean(env, images[..n]);
      FlagsNext(images, f);
      PickNext(Flags(images[..n], f), at, f(images[n]));
      at := at + if f(images[n]) then [n] else [];
    }
  }

  /** A temporary message: a user's, with the loaded images in order, references to their files and no other metadata. */
  lemma TemporaryMeans(ls: seq<Loaded>)
    ensures var t := Temporary(ls);
            && t.role == "user" && t.temporary && t.content.Items? && |t.content.items| == |ls|
            && t.kwargs.Some? && t.kwargs.value.artifacts == None && t.kwargs.value.others == map[]
            && t.kwargs.value.fileRefs.Some? && |t.kwargs.value.fileRefs.value| == |ls|
            && forall k | 0 <= k < |ls| ::
                 && t.content.items[k] == Item("image_url", None, None, Some(ls[k].url), None)
                 && t.kwargs.value.fileRefs.value[k] == FileRef(k, ls[k].fileName, ls[k].mime)
  {
  }

  /** The message behind an assistant's shows one of its images already: a user's, with a stored or base64 item of that name, the storage prefix aside. */
  predicate Shows(images: seq<Image>, next: Message) {
    && next.role == "user" && next.content.Items?
    && exists i | 0 <= i < |next.content.items| ::
         && (next.content.items[i].kind == "stored-file" || next.content.items[i].kind == "image_url")
         && exists j | 0 <= j < |images| :: RemoveFirst(images[j].name, "FILE-STORAGE::") == NameOf(next.content.items[i])
  }

  function NameOf(item: Item): string {
    if item.name == None then "" else RemoveFirst(item.name.value, "FILE-STORAGE::")
  }

  /** There is a temporary message exactly if the message has images, the next one does not show any and some image loads. */
  lemma TempMeans(env: Env, m: Message, next: Option<Message>)
    requires ImageArtifacts(env, ArtifactsOf(m)).Some?
    ensures var images := ImageArtifacts(env, ArtifactsOf(m)).value;
            Temp(env, m, next) ==
              if images != [] && !(next.Some? && Shows(images, next.value)) && LoadAll(env, images) != [] then [Temporary(LoadAll(env, images))] else []
  {
    var images := ImageArtifacts(env, ArtifactsOf(m)).value;
    if next.Some? { PresentIsShown(images, next.value); }
  }

  lemma PresentIsShown(images: seq<Image>, next: Message)
    ensures AlreadyPresent(images, Some(next)) <==> Shows(images, next)
  {
    if AlreadyPresent(images, Some(next)) {
      var item :| item in next.content.items && (item.kind == STORED_FILE || item.kind == IMAGE_URL)
                  && exists image | image in images :: SameFile(image, item);
      var image :| image in images && SameFile(image, item);
      var i :| 0 <= i < |next.content.items| && next.content.items[i] == item;
      var j :| 0 <= j < |images| && images[j] == image;
      assert RemoveFirst(images[j].name, "FILE-STORAGE::") == NameOf(next.content.items[i]);
    }
    if Shows(images, next) {
      var i :| 0 <= i < |next.content.items|
               && (next.content.items[i].kind == "stored-file" || next.content.items[i].kind == "image_url")
               && exists j | 0 <= j < |images| :: RemoveFirst(images[j].name, "FILE-STORAGE::") == NameOf(next.content.items[i]);
      var j :| 0 <= j < |images| && RemoveFirst(images[j].name, "FILE-STORAGE::") == NameOf(next.content.items[i]);
      assert SameFile(images[j], next.content.items[i]);
      assert next.content.items[i] in next.content.items && images[j] in images;
    }
  }

  /** Removing a text takes its first occurrence, or nothing where there is none. */
  lemma {:induction false} RemoveFirstMeans(a: string, pat: string, b: string)
    requires pat != "" && forall i | 0 <= i < |a| :: !(pat <= (a + pat + b)[i..])
    ensures RemoveFirst(a + pat + b, pat) == a + b
  {
    var s := a + pat + b;
    if a == "" {
      assert s == pat + b && a + b == b;
    } else {
      assert s[0..] == s && s[1..] == a[1..] + pat + b;
      forall i | 0 <= i < |a[1..]| ensures !(pat <= (a[1..] + pat + b)[i..]) {
        assert (a[1..] + pat + b)[i..] == s[i + 1..];
      }
      RemoveFirstMeans(a[1..], pat, b);
      assert [a[0]] + (a[1..] + b) == a + b;
    }
  }

  lemma {:induction false} RemoveNothing(s: string, pat: string)
    requires pat != "" && forall i | 0 <= i <= |s| :: !(pat <= s[i..])
    ensures RemoveFirst(s, pat) == s
  {
    assert s[0..] == s;
    if s != "" {
      forall i | 0 <= i <= |s[1..]| ensures !(pat <= s[1..][i..]) {
        assert s[1..][i..] == s[i + 1..];
      }
      RemoveNothing(s[1..], pat);
      assert s == [s[0]] + s[1..];
    }
  }

  /** Each message of the list, in order, is followed by its temporary message if it has one; the last one looks at no next message. */
  lemma InterleaveMeans(env: Env, ms: seq<Message>)
    requires forall m | m in ms :: Readable(env, m)
    ensures |ms| == 0 ==> Interleave(env, ms) == []
    ensures |ms| == 1 ==> Interleave(env, ms) == ms + Temp(env, ms[0], None)
    ensures |ms| > 1 ==> Interleave(env, ms) == [ms[0]] + Temp(env, ms[0], Some(ms[1])) + Interleave(env, ms[1..])
  {
    if |ms| == 1 {
      assert ms == [ms[0]] && Interleave(env, ms[1..]) == [];
    }
  }

  /** Dropping keeps the others in order. */
  lemma {:induction false} DropMeans(a: seq<Message>, m: Message, b: seq<Message>)
    ensures DropTemporary(a + [m] + b) == DropTemporary(a) + (if m.temporary then [] else [m]) + DropTemporary(b)
    ensures DropTemporary([]) == []
  {
    DropConcat(a + [m], b);
    DropConcat(a, [m]);
    assert [m][1..] == [];
  }
}
