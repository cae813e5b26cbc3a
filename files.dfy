/** The editor's list of files and the handlers that change it: creating,
    importing, selecting, renaming and editing a file, and the two-step
    delete (ask, then confirm or cancel). Each handler is one atomic step
    on the store's fields; as in the source, new lists are built from the
    old ones (append, filter, map) and assigned to the field. */
module Editor {
  import opened Text

  /** One document of the editor. */
  datatype File = File(id: nat, name: string, content: string)

  // ---------------------------------------------------------------------
  // Lists of files

  /** The ids of `files`, in order. */
  function Ids(files: seq<File>): (ids: seq<nat>)
    ensures |ids| == |files| && forall i :: 0 <= i < |files| ==> ids[i] == files[i].id
  {
    if files == [] then [] else [files[0].id] + Ids(files[1..])
  }

  /** No two files share an id. */
  predicate DistinctIds(files: seq<File>)
  {
    forall i, j :: 0 <= i < j < |files| ==> files[i].id != files[j].id
  }

  /** Every id is below `n`. */
  predicate Below(files: seq<File>, n: nat)
  {
    forall i :: 0 <= i < |files| ==> files[i].id < n
  }

  /** `files.find(f => f.id === id)`: the first file with the id. */
  function Find(files: seq<File>, id: nat): (r: Option<File>)
    ensures r.None? <==> id !in Ids(files)
    ensures r.Some? ==> r.value in files && r.value.id == id
  {
    if files == [] then None
    else if files[0].id == id then Some(files[0])
    else
      assert Ids(files) == [files[0].id] + Ids(files[1..]);
      Find(files[1..], id)
  }

  /** `files.filter(f => f.id !== id)`. */
  function WithoutId(files: seq<File>, id: nat): (r: seq<File>)
    ensures |r| <= |files|
    ensures forall f :: f in r <==> f in files && f.id != id
  {
    if files == [] then []
    else if files[0].id == id then WithoutId(files[1..], id)
    else [files[0]] + WithoutId(files[1..], id)
  }

  /** `files.map(f => f.id === id ? { ...f, name } : f)`. */
  function WithName(files: seq<File>, id: nat, name: string): (r: seq<File>)
    ensures |r| == |files|
    ensures forall i :: 0 <= i < |files| && files[i].id == id ==> r[i] == File(id, name, files[i].content)
    ensures forall i :: 0 <= i < |files| && files[i].id != id ==> r[i] == files[i]
  {
    if files == [] then []
    else
      var f := files[0];
      var rest := WithName(files[1..], id, name);
      var r := [if f.id == id then File(f.id, name, f.content) else f] + rest;
      assert forall i :: 1 <= i < |files| ==> r[i] == rest[i - 1] && files[i] == files[1..][i - 1];
      r
  }

  /** `files.map(f => f.id === id ? { ...f, content } : f)`. */
  function WithContent(files: seq<File>, id: nat, content: string): (r: seq<File>)
    ensures |r| == |files|
    ensures forall i :: 0 <= i < |files| && files[i].id == id ==> r[i] == File(id, files[i].name, content)
    ensures forall i :: 0 <= i < |files| && files[i].id != id ==> r[i] == files[i]
  {
    if files == [] then []
    else
      var f := files[0];
      var rest := WithContent(files[1..], id, content);
      var r := [if f.id == id then File(f.id, f.name, content) else f] + rest;
      assert forall i :: 1 <= i < |files| ==> r[i] == rest[i - 1] && files[i] == files[1..][i - 1];
      r
  }

  // ---------------------------------------------------------------------
  // Names of new files

  /** The decimal digit of `d`. */
  function Digit(d: nat): char
    requires d < 10
  {
    "0123456789"[d]
  }

  /** The value of a decimal digit. */
  function DigitValue(c: char): nat
  {
    if '0' <= c <= '9' then (c as int - '0' as int) as nat else 0
  }

  /** `${n}`: the decimal numeral of `n`, without leading zeros. */
  function Decimal(n: nat): (s: string)
    ensures s != [] && (s[0] == '0' ==> n == 0)
    ensures forall i :: 0 <= i < |s| ==> '0' <= s[i] <= '9'
    decreases n
  {
    if n < 10 then [Digit(n)] else Decimal(n / 10) + [Digit(n % 10)]
  }

  /** The number a string of decimal digits denotes. */
  function Value(s: string): nat
  {
    if s == [] then 0 else 10 * Value(s[..|s| - 1]) + DigitValue(s[|s| - 1])
  }

  /** Reading the numeral back gives the number. */
  lemma {:induction false} ValueOfDecimal(n: nat)
    ensures Value(Decimal(n)) == n
    decreases n
  {
    if n >= 10 {
      ValueOfDecimal(n / 10);
      var s := Decimal(n);
      assert s[..|s| - 1] == Decimal(n / 10);
    }
  }

  /** The name `createNewFile` gives the file with id `n`. */
  function NewFileName(n: nat): string
  {
    "新檔案" + Decimal(n) + ".md"
  }

  /** Different ids give different new-file names. */
  lemma NewFileNameInjective(n: nat, m: nat)
    requires NewFileName(n) == NewFileName(m)
    ensures n == m
  {
    var a := NewFileName(n);
    var b := NewFileName(m);
    assert a[3..|a| - 3] == Decimal(n);
    assert b[3..|b| - 3] == Decimal(m);
    ValueOfDecimal(n);
    ValueOfDecimal(m);
  }

  // ---------------------------------------------------------------------
  // Laws of the list operations

  /** Appending a file with the next id keeps ids distinct and below the counter after it. */
  lemma AppendFresh(files: seq<File>, n: nat, f: File)
    requires DistinctIds(files) && Below(files, n) && f.id == n
    ensures DistinctIds(files + [f]) && Below(files + [f], n + 1)
    ensures Ids(files + [f]) == Ids(files) + [n]
  {
    var r := files + [f];
    forall i | 0 <= i < |r| ensures Ids(r)[i] == (Ids(files) + [n])[i] {
      if i < |files| {
        assert r[i] == files[i];
      }
    }
  }

  /** Renaming or editing keeps every id in its place. */
  lemma MapsKeepIds(files: seq<File>, id: nat, text: string)
    ensures Ids(WithName(files, id, text)) == Ids(files)
    ensures Ids(WithContent(files, id, text)) == Ids(files)
  {
    var a := WithName(files, id, text);
    var b := WithContent(files, id, text);
    assert forall i :: 0 <= i < |files| ==> a[i].id == files[i].id;
    assert forall i :: 0 <= i < |files| ==> b[i].id == files[i].id;
  }

  /** Distinct ids identify a file by its id. */
  lemma IdsDistinct(files: seq<File>)
    requires DistinctIds(files)
    ensures forall f, g :: f in files && g in files && f.id == g.id ==> f == g
  {
  }

  /** The files after the first keep distinct ids. */
  lemma DistinctTail(files: seq<File>)
    requires files != [] && DistinctIds(files)
    ensures DistinctIds(files[1..])
    ensures files[0].id !in Ids(files[1..])
  {
    var tail := files[1..];
    forall i, j | 0 <= i < j < |tail| ensures tail[i].id != tail[j].id {
      assert tail[i] == files[i + 1] && tail[j] == files[j + 1];
    }
    forall i | 0 <= i < |tail| ensures Ids(tail)[i] != files[0].id {
      assert tail[i] == files[i + 1];
    }
  }

  /** With distinct ids, the filter removes exactly the file with the id:
      one fewer when it is listed, none fewer when it is not. */
  lemma {:induction false} WithoutIdCount(files: seq<File>, id: nat)
    requires DistinctIds(files)
    ensures id in Ids(files) ==> |WithoutId(files, id)| == |files| - 1
    ensures id !in Ids(files) ==> WithoutId(files, id) == files
  {
    if files != [] {
      var tail := files[1..];
      DistinctTail(files);
      IdsCons(files, id);
      WithoutIdCount(tail, id);
      if files[0].id != id {
        assert files == [files[0]] + tail;
      }
    }
  }

  /** An id is listed when it is the first file's or one of the rest's. */
  lemma IdsCons(files: seq<File>, id: nat)
    requires files != []
    ensures id in Ids(files) <==> id == files[0].id || id in Ids(files[1..])
  {
    assert Ids(files) == [files[0].id] + Ids(files[1..]);
  }

  /** A file whose id no later file has can head a list of distinct ids. */
  lemma ConsDistinct(f: File, rest: seq<File>)
    requires DistinctIds(rest) && forall g :: g in rest ==> g.id != f.id
    ensures DistinctIds([f] + rest)
  {
    var r := [f] + rest;
    forall i, j | 0 <= i < j < |r| ensures r[i].id != r[j].id {
      assert r[j] == rest[j - 1];
      if i > 0 {
        assert r[i] == rest[i - 1];
      }
    }
  }

  /** Filtering keeps ids distinct. */
  lemma {:induction false} WithoutIdDistinct(files: seq<File>, id: nat)
    requires DistinctIds(files)
    ensures DistinctIds(WithoutId(files, id))
  {
    if files != [] {
      var tail := files[1..];
      DistinctTail(files);
      WithoutIdDistinct(tail, id);
      var rest := WithoutId(tail, id);
      if files[0].id != id {
        assert forall g :: g in rest ==> g.id != files[0].id by {
          forall g | g in rest ensures g.id != files[0].id {
            var k :| 0 <= k < |tail| && tail[k] == g;
            assert Ids(tail)[k] == g.id;
          }
        }
        ConsDistinct(files[0], rest);
      }
    }
  }

  /** Filtering keeps ids distinct and below any bound they were below, and
      keeps exactly the ids other than the one removed. */
  lemma WithoutIdKeeps(files: seq<File>, id: nat, n: nat)
    requires DistinctIds(files) && Below(files, n)
    ensures DistinctIds(WithoutId(files, id)) && Below(WithoutId(files, id), n)
    ensures forall k :: k in Ids(WithoutId(files, id)) <==> k in Ids(files) && k != id
  {
    var r := WithoutId(files, id);
    WithoutIdDistinct(files, id);
    WithoutIdBelow(files, id, n);
    forall k ensures k in Ids(r) <==> k in Ids(files) && k != id {
      InIds(r, k);
      InIds(files, k);
    }
  }

  /** An id is listed exactly when some file carries it. */
  lemma InIds(files: seq<File>, k: nat)
    ensures k in Ids(files) <==> exists f :: f in files && f.id == k
  {
    if k in Ids(files) {
      var i :| 0 <= i < |files| && Ids(files)[i] == k;
      assert files[i] in files;
    }
    if exists f :: f in files && f.id == k {
      var f :| f in files && f.id == k;
      var i :| 0 <= i < |files| && files[i] == f;
      assert Ids(files)[i] == k;
    }
  }

  lemma WithoutIdBelow(files: seq<File>, id: nat, n: nat)
    requires Below(files, n)
    ensures Below(WithoutId(files, id), n)
  {
    var r := WithoutId(files, id);
    forall i | 0 <= i < |r| ensures r[i].id < n {
      assert r[i] in r;
      var j :| 0 <= j < |files| && files[j] == r[i];
    }
  }

  /** The filter keeps order: filtering a concatenation filters each part in turn. */
  lemma {:induction false} WithoutIdAppend(a: seq<File>, b: seq<File>, id: nat)
    ensures WithoutId(a + b, id) == WithoutId(a, id) + WithoutId(b, id)
    decreases |a|
  {
    if a == [] {
      assert a + b == b;
    } else {
      assert (a + b)[0] == a[0];
      assert (a + b)[1..] == a[1..] + b;
      WithoutIdAppend(a[1..], b, id);
    }
  }

  /** The first file left is the first file of the list whose id differs. */
  lemma {:induction false} WithoutIdFirst(files: seq<File>, id: nat, k: nat)
    requires k < |files| && files[k].id != id
    requires forall j :: 0 <= j < k ==> files[j].id == id
    ensures WithoutId(files, id) != [] && WithoutId(files, id)[0] == files[k]
    decreases k
  {
    if k > 0 {
      assert forall j :: 0 <= j < k - 1 ==> files[1..][j] == files[j + 1];
      WithoutIdFirst(files[1..], id, k - 1);
    }
  }

  /** With distinct ids, removing one id from two or more files leaves at least one. */
  lemma WithoutIdNonEmpty(files: seq<File>, id: nat)
    requires DistinctIds(files) && |files| >= 2
    ensures WithoutId(files, id) != []
  {
    WithoutIdCount(files, id);
  }

  // ---------------------------------------------------------------------
  // The store

  /** The text of the welcome file of a first start. */
  const WelcomeContent: string :=
    "# 歡迎使用 Markdown 編輯器\n\n## 功能特色\n\n- 支援多個檔案\n- 即時預覽\n- 可縮放的側邊欄\n- 自動同步到 localStorage\n\n### 快速開始\n\n開始輸入你的 **Markdown** 內容吧！\n\n```javascript\nconsole.log(\"Hello, Markdown!\");\n```\n\n> 這是一個引用區塊"

  /** The editor's file state: the list, the selected file, the next id to
      hand out and the id awaiting confirmation of its deletion. */
  class FileStore {
    var files: seq<File>
    var currentFileId: nat
    var nextId: nat
    var deleteConfirm: Option<nat>

    /** What every handler keeps: the list is never empty, ids are distinct
        and below the counter, the selected id is listed, and a pending
        delete leaves at least one file behind. */
    ghost predicate Valid()
      reads this
    {
      && files != []
      && DistinctIds(files)
      && Below(files, nextId)
      && currentFileId in Ids(files)
      && (deleteConfirm.Some? ==> |files| >= 2)
    }

    /** The state of a first start: the welcome file, selected, and id 2 next. */
    constructor ()
      ensures Valid()
      ensures files == [File(1, "歡迎.md", WelcomeContent)]
      ensures currentFileId == 1 && nextId == 2 && deleteConfirm == None
    {
      files := [File(1, "歡迎.md", WelcomeContent)];
      currentFileId := 1;
      nextId := 2;
      deleteConfirm := None;
    }

    /** `files.find(f => f.id === currentFileId)`. */
    function CurrentFile(): (r: Option<File>)
      reads this
      ensures Valid() ==> r.Some? && r.value in files && r.value.id == currentFileId
      ensures Valid() ==> forall f :: f in files && f.id == currentFileId ==> f == r.value
    {
      Find(files, currentFileId)
    }

    /** Appends a file with the next id, selects it and advances the counter. */
    method Add(name: string, content: string)
      requires Valid()
      modifies this
      ensures Valid()
      ensures files == old(files) + [File(old(nextId), name, content)]
      ensures currentFileId == old(nextId) && nextId == old(nextId) + 1
      ensures deleteConfirm == old(deleteConfirm)
    {
      var f := File(nextId, name, content);
      AppendFresh(files, nextId, f);
      files := files + [f];
      currentFileId := nextId;
      nextId := nextId + 1;
    }

    /** `createNewFile`: an empty file named after its id. */
    method CreateNewFile()
      requires Valid()
      modifies this
      ensures Valid()
      ensures files == old(files) + [File(old(nextId), NewFileName(old(nextId)), "")]
      ensures currentFileId == old(nextId) && nextId == old(nextId) + 1
      ensures deleteConfirm == old(deleteConfirm)
    {
      Add(NewFileName(nextId), "");
    }

    /** The state change of `importFile` once the file has been read. The
        handler runs in a closure made when the file was chosen, so it builds
        on the list `seenFiles` and counter `seenNextId` of that moment, which
        were a valid state then; whatever changed the list while the file was
        being read is overwritten. With `seenFiles == files` and
        `seenNextId == nextId` it is a plain append. */
    method ImportFile(seenFiles: seq<File>, seenNextId: nat, name: string, content: string)
      requires Valid()
      requires seenFiles != [] && DistinctIds(seenFiles) && Below(seenFiles, seenNextId)
      modifies this
      ensures Valid()
      ensures files == seenFiles + [File(seenNextId, name, content)]
      ensures currentFileId == seenNextId && nextId == seenNextId + 1
      ensures deleteConfirm == old(deleteConfirm)
    {
      var f := File(seenNextId, name, content);
      AppendFresh(seenFiles, seenNextId, f);
      files := seenFiles + [f];
      currentFileId := seenNextId;
      nextId := seenNextId + 1;
    }

    /** Clicking a file in the list selects it. */
    method SelectFile(id: nat)
      requires Valid() && id in Ids(files)
      modifies this
      ensures Valid()
      ensures currentFileId == id
      ensures files == old(files) && nextId == old(nextId) && deleteConfirm == old(deleteConfirm)
    {
      currentFileId := id;
    }

    /** `deleteFile`: the last file is refused (the source alerts); otherwise
        the id waits for confirmation and nothing is removed yet. */
    method DeleteFile(id: nat) returns (refused: bool)
      requires Valid()
      modifies this
      ensures Valid()
      ensures refused <==> |old(files)| == 1
      ensures deleteConfirm == if refused then old(deleteConfirm) else Some(id)
      ensures files == old(files) && currentFileId == old(currentFileId) && nextId == old(nextId)
    {
      if |files| == 1 {
        return true;
      }
      deleteConfirm := Some(id);
      return false;
    }

    /** `confirmDelete`: drops the files with the pending id, selects the
        first file left when the selected one went, and closes the dialog.
        With nothing pending, no file has a matching id and nothing goes. */
    method ConfirmDelete()
      requires Valid()
      modifies this
      ensures Valid()
      ensures old(deleteConfirm).None? ==> files == old(files)
      ensures old(deleteConfirm).Some? ==> files == WithoutId(old(files), old(deleteConfirm).value)
      ensures old(deleteConfirm).Some? ==> |files| == |old(files)| - (if old(deleteConfirm).value in Ids(old(files)) then 1 else 0)
      ensures currentFileId == if old(deleteConfirm) == Some(old(currentFileId)) then files[0].id else old(currentFileId)
      ensures deleteConfirm == None && nextId == old(nextId)
    {
      match deleteConfirm
      case None =>
      case Some(id) =>
        WithoutIdCount(files, id);
        WithoutIdNonEmpty(files, id);
        WithoutIdKeeps(files, id, nextId);
        var newFiles := WithoutId(files, id);
        files := newFiles;
        if currentFileId == id {
          currentFileId := newFiles[0].id;
        }
      deleteConfirm := None;
    }

    /** `cancelDelete`: closes the dialog and keeps every file. */
    method CancelDelete()
      requires Valid()
      modifies this
      ensures Valid()
      ensures deleteConfirm == None
      ensures files == old(files) && currentFileId == old(currentFileId) && nextId == old(nextId)
    {
      deleteConfirm := None;
    }

    /** `updateFileName`: renames the files with the id and no other. */
    method UpdateFileName(id: nat, newName: string)
      requires Valid()
      modifies this
      ensures Valid()
      ensures files == WithName(old(files), id, newName)
      ensures currentFileId == old(currentFileId) && nextId == old(nextId) && deleteConfirm == old(deleteConfirm)
    {
      MapsKeepIds(files, id, newName);
      files := WithName(files, id, newName);
    }

    /** `updateFileContent`: replaces the text of the selected file and no other. */
    method UpdateFileContent(content: string)
      requires Valid()
      modifies this
      ensures Valid()
      ensures files == WithContent(old(files), currentFileId, content)
      ensures currentFileId == old(currentFileId) && nextId == old(nextId) && deleteConfirm == old(deleteConfirm)
    {
      MapsKeepIds(files, currentFileId, content);
      files := WithContent(files, currentFileId, content);
    }
  }
}
