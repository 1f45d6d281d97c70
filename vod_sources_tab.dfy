/**
  The admin tab that manages the video sources: delete, add, edit, select
  and encrypted import. Each change computes the new list and selection
  first, sends them to the server, and applies them locally only when the
  server answers with code 200.

  The server's answer and the decryption of an import are inputs.
 */
module VodSourcesTab {
  import opened Strings
  import opened VodTypes

  // ---------------------------------------------------------------------------
  // The list computations
  // ---------------------------------------------------------------------------

  predicate HasKey(sources: seq<VodSource>, key: string) {
    exists i :: 0 <= i < |sources| && sources[i].key == key
  }

  /** `sources.filter(s => s.key !== key)` */
  function WithoutKey(sources: seq<VodSource>, key: string): (r: seq<VodSource>)
    ensures |r| <= |sources|
    ensures forall x :: x in r <==> x in sources && x.key != key
  {
    if |sources| == 0 then []
    else
      var rest := WithoutKey(sources[1..], key);
      assert forall x :: x in sources <==> x == sources[0] || x in sources[1..];
      if sources[0].key == key then rest else [sources[0]] + rest
  }

  /** Deleting works piece by piece, so the survivors keep their relative order. */
  lemma {:induction false} WithoutKeyConcat(a: seq<VodSource>, b: seq<VodSource>, key: string)
    ensures WithoutKey(a + b, key) == WithoutKey(a, key) + WithoutKey(b, key)
    decreases |a|
  {
    if |a| == 0 {
      assert a + b == b;
    } else {
      assert (a + b)[0] == a[0] && (a + b)[1..] == a[1..] + b;
      WithoutKeyConcat(a[1..], b, key);
    }
  }

  /** Deleting a key nobody has changes nothing. */
  lemma {:induction false} WithoutAbsentKey(sources: seq<VodSource>, key: string)
    requires !HasKey(sources, key)
    ensures WithoutKey(sources, key) == sources
    decreases |sources|
  {
    if |sources| > 0 {
      assert forall i :: 1 <= i < |sources| ==> sources[1..][i - 1] == sources[i];
      WithoutAbsentKey(sources[1..], key);
    }
  }

  /** `newSelected` after a delete. */
  function SelectionAfterDelete(selected: string, key: string, remaining: seq<VodSource>): (r: string)
    ensures r != selected ==> selected == key && remaining != [] && r == remaining[0].key
  {
    if selected == key && |remaining| > 0 then remaining[0].key else selected
  }

  /**
    After a delete the selection names a remaining source whenever it named
    a source before and some source remains.
   */
  lemma DeleteKeepsSelectionValid(sources: seq<VodSource>, selected: string, key: string)
    requires HasKey(sources, selected)
    requires WithoutKey(sources, key) != []
    ensures HasKey(WithoutKey(sources, key), SelectionAfterDelete(selected, key, WithoutKey(sources, key)))
  {
    var remaining := WithoutKey(sources, key);
    if selected != key {
      var i :| 0 <= i < |sources| && sources[i].key == selected;
      assert sources[i] in remaining;
      var j :| 0 <= j < |remaining| && remaining[j] == sources[i];
    }
  }

  /** The form may be saved only with a key, a name and an api; the play url is optional. */
  predicate FormComplete(form: VodSource) {
    form.key != "" && form.name != "" && form.api != ""
  }

  /** Add mode: `[...sources, formData]`, refused for a key already present. */
  function AddSource(sources: seq<VodSource>, form: VodSource): (r: Option<seq<VodSource>>)
    ensures r.None? <==> HasKey(sources, form.key)
    ensures r.Some? ==> |r.value| == |sources| + 1 && r.value[..|sources|] == sources && r.value[|sources|] == form
  {
    if HasKey(sources, form.key) then None else Some(sources + [form])
  }

  /** Edit mode: `sources.map(s => s.key === editingKey ? formData : s)`. */
  function ReplaceKey(sources: seq<VodSource>, editingKey: Option<string>, form: VodSource): (r: seq<VodSource>)
    ensures |r| == |sources|
    ensures forall i :: 0 <= i < |sources| ==> r[i] == (if editingKey == Some(sources[i].key) then form else sources[i])
  {
    seq(|sources|, i requires 0 <= i < |sources| => if editingKey == Some(sources[i].key) then form else sources[i])
  }

  /** Editing the source whose key the form keeps touches only the entries with that key. */
  lemma EditFacts(sources: seq<VodSource>, edited: VodSource, form: VodSource)
    requires form.key == edited.key
    ensures var r := ReplaceKey(sources, Some(edited.key), form);
            && |r| == |sources|
            && (forall i :: 0 <= i < |sources| && sources[i].key != edited.key ==> r[i] == sources[i])
            && (forall i :: 0 <= i < |sources| && sources[i].key == edited.key ==> r[i] == form)
            && (forall i :: 0 <= i < |r| ==> r[i].key == sources[i].key)
            && (HasKey(sources, edited.key) ==> form in r)
  {
    if HasKey(sources, edited.key) {
      var i :| 0 <= i < |sources| && sources[i].key == edited.key;
      assert ReplaceKey(sources, Some(edited.key), form)[i] == form;
    }
  }

  // ---------------------------------------------------------------------------
  // The tab
  // ---------------------------------------------------------------------------

  /** The server's answer to a save, delete, select or import: a `code` and `message`, or a failed request. */
  datatype ServerReply = Replied(code: int, message: string) | RequestFailed

  datatype ToastKind = Success | Warning | Failure

  datatype Toast = Toast(message: string, kind: ToastKind)

  /** The outcome of decrypting an import: the payload's sources (absent or a list), or the thrown error. */
  datatype DecryptOutcome = Decrypted(vodSources: Option<seq<VodSource>>) | DecryptThrew(errorMessage: Option<string>)

  const FillInMsg := "请填写 Key、名称和 API 地址"
  const KeyExistsMsg := "视频源key已存在"
  const SavedMsg := "保存成功"
  const SaveFailedMsg := "保存失败"
  const DeletedMsg := "删除成功"
  const DeleteFailedMsg := "删除失败"
  const SelectFailedMsg := "选择失败"
  const ImportFailedMsg := "导入视频源失败"
  const ImportErrorMsg := "导入失败"
  const NeedPasswordMsg := "请输入密码和加密数据"
  const NoVodSourcesMsg := "配置中没有 VOD 源数据"
  const DecryptFailedMsg := "解密失败"

  const EmptyForm := VodSource("", "", "", "", true, 0, "json")

  /** `result.message || fallback` */
  function ReplyMessage(reply: ServerReply, fallback: string): string {
    if reply.Replied? && reply.message != "" then reply.message else fallback
  }

  function ImportedMsg(n: nat): string {
    "已成功导入 " + IntToString(n) + " 个视频源"
  }

  class Tab {
    var sources: seq<VodSource>
    var selectedKey: string
    var editing: Option<VodSource>
    var addMode: bool
    var form: VodSource
    var importPreview: Option<seq<VodSource>>
    var decryptError: string
    var importOpen: bool
    var toast: Option<Toast>

    constructor(sources: seq<VodSource>, selectedKey: string)
      ensures this.sources == sources && this.selectedKey == selectedKey
      ensures editing.None? && !addMode && form == EmptyForm
      ensures importPreview.None? && decryptError == "" && !importOpen && toast.None?
    {
      this.sources := sources;
      this.selectedKey := selectedKey;
      editing := None;
      addMode := false;
      form := EmptyForm;
      importPreview := None;
      decryptError := "";
      importOpen := false;
      toast := None;
    }

    /** The edit button: the form gets a copy of the source. */
    method Edit(source: VodSource)
      modifies this
      ensures form == source && editing == Some(source) && !addMode
      ensures sources == old(sources) && selectedKey == old(selectedKey) && toast == old(toast)
      ensures importPreview == old(importPreview) && decryptError == old(decryptError) && importOpen == old(importOpen)
    {
      form := source;
      editing := Some(source);
      addMode := false;
    }

    /** Typing in the key field, which is disabled unless a source is being added. */
    method ChangeKey(key: string)
      modifies this
      ensures form == (if old(addMode) then old(form).(key := key) else old(form))
      ensures sources == old(sources) && selectedKey == old(selectedKey) && editing == old(editing) && addMode == old(addMode)
      ensures toast == old(toast) && importPreview == old(importPreview) && decryptError == old(decryptError) && importOpen == old(importOpen)
    {
      if addMode {
        form := form.(key := key);
      }
    }

    /** Typing in any other field of the form. */
    method ChangeFields(fields: VodSource)
      modifies this
      ensures form == fields.(key := old(form).key)
      ensures sources == old(sources) && selectedKey == old(selectedKey) && editing == old(editing) && addMode == old(addMode)
      ensures toast == old(toast) && importPreview == old(importPreview) && decryptError == old(decryptError) && importOpen == old(importOpen)
    {
      form := fields.(key := form.key);
    }

    /** handleCancel */
    method Cancel()
      modifies this
      ensures editing.None? && !addMode
      ensures sources == old(sources) && selectedKey == old(selectedKey) && form == old(form) && toast == old(toast)
      ensures importPreview == old(importPreview) && decryptError == old(decryptError) && importOpen == old(importOpen)
    {
      editing := None;
      addMode := false;
    }

    /**
      handleSave: an incomplete form or (in add mode) a taken key is refused
      before anything is sent; otherwise the new list is applied when the
      server answers 200. The selection never changes.
     */
    method Save(reply: ServerReply)
      modifies this
      ensures selectedKey == old(selectedKey) && form == old(form)
      ensures importPreview == old(importPreview) && decryptError == old(decryptError) && importOpen == old(importOpen)
      ensures !FormComplete(old(form)) ==>
                sources == old(sources) && toast == Some(Toast(FillInMsg, Warning))
                && editing == old(editing) && addMode == old(addMode)
      ensures FormComplete(old(form)) && old(addMode) && HasKey(old(sources), old(form).key) ==>
                sources == old(sources) && toast == Some(Toast(KeyExistsMsg, Failure)) && editing == old(editing) && addMode
      ensures var next := if old(addMode) then old(sources) + [old(form)] else ReplaceKey(old(sources), KeyOf(old(editing)), old(form));
              FormComplete(old(form)) && !(old(addMode) && HasKey(old(sources), old(form).key)) ==>
                if reply.Replied? && reply.code == 200 then
                  sources == next && editing.None? && !addMode && toast == Some(Toast(SavedMsg, Success))
                else
                  sources == old(sources) && editing == old(editing) && addMode == old(addMode)
                  && toast == Some(Toast(ReplyMessage(reply, SaveFailedMsg), Failure))
    {
      if !FormComplete(form) {
        toast := Some(Toast(FillInMsg, Warning));
        return;
      }
      var newSources: seq<VodSource>;
      if addMode {
        var added := AddSource(sources, form);
        if added.None? {
          toast := Some(Toast(KeyExistsMsg, Failure));
          return;
        }
        newSources := added.value;
      } else {
        newSources := ReplaceKey(sources, KeyOf(editing), form);
      }
      if reply.Replied? && reply.code == 200 {
        sources := newSources;
        editing := None;
        addMode := false;
        toast := Some(Toast(SavedMsg, Success));
      } else {
        toast := Some(Toast(ReplyMessage(reply, SaveFailedMsg), Failure));
      }
    }

    /** The confirmed delete: list and selection change together, and only on a 200 answer. */
    method Delete(key: string, reply: ServerReply)
      modifies this
      ensures editing == old(editing) && addMode == old(addMode) && form == old(form)
      ensures importPreview == old(importPreview) && decryptError == old(decryptError) && importOpen == old(importOpen)
      ensures reply.Replied? && reply.code == 200 ==>
                var remaining := WithoutKey(old(sources), key);
                sources == remaining && selectedKey == SelectionAfterDelete(old(selectedKey), key, remaining)
                && toast == Some(Toast(DeletedMsg, Success))
      ensures !(reply.Replied? && reply.code == 200) ==>
                sources == old(sources) && selectedKey == old(selectedKey)
                && toast == Some(Toast(ReplyMessage(reply, DeleteFailedMsg), Failure))
    {
      var newSources := WithoutKey(sources, key);
      var newSelected := if selectedKey == key && |newSources| > 0 then newSources[0].key else selectedKey;
      if reply.Replied? && reply.code == 200 {
        sources := newSources;
        selectedKey := newSelected;
        toast := Some(Toast(DeletedMsg, Success));
      } else {
        toast := Some(Toast(ReplyMessage(reply, DeleteFailedMsg), Failure));
      }
    }

    /** handleSelectSource */
    method SelectSource(key: string, reply: ServerReply)
      modifies this
      ensures sources == old(sources) && editing == old(editing) && addMode == old(addMode) && form == old(form)
      ensures importPreview == old(importPreview) && decryptError == old(decryptError) && importOpen == old(importOpen)
      ensures reply.Replied? && reply.code == 200 ==> selectedKey == key && toast == old(toast)
      ensures !(reply.Replied? && reply.code == 200) ==>
                selectedKey == old(selectedKey) && toast == Some(Toast(ReplyMessage(reply, SelectFailedMsg), Failure))
    {
      if reply.Replied? && reply.code == 200 {
        selectedKey := key;
      } else {
        toast := Some(Toast(ReplyMessage(reply, SelectFailedMsg), Failure));
      }
    }

    /** Opening the encrypted-import dialog. */
    method OpenImport()
      modifies this
      ensures importOpen
      ensures sources == old(sources) && selectedKey == old(selectedKey) && editing == old(editing) && addMode == old(addMode)
      ensures form == old(form) && toast == old(toast) && importPreview == old(importPreview) && decryptError == old(decryptError)
    {
      importOpen := true;
    }

    /**
      handleDecryptPreview: without a password and data nothing is decrypted;
      otherwise a non-empty source list becomes the preview, and anything
      else an error message.
     */
    method DecryptPreview(password: string, data: string, outcome: DecryptOutcome)
      modifies this
      ensures sources == old(sources) && selectedKey == old(selectedKey) && editing == old(editing) && addMode == old(addMode)
      ensures form == old(form) && toast == old(toast) && importOpen == old(importOpen)
      ensures (password == "" || data == "") ==> decryptError == NeedPasswordMsg && importPreview == old(importPreview)
      ensures password != "" && data != "" ==>
                (importPreview.Some? <==> outcome.Decrypted? && outcome.vodSources.Some? && outcome.vodSources.value != [])
                && (importPreview.Some? ==> importPreview == outcome.vodSources && decryptError == "")
                && (outcome.Decrypted? && importPreview.None? ==> decryptError == NoVodSourcesMsg)
                && (outcome.DecryptThrew? ==> decryptError == outcome.errorMessage.GetOr(DecryptFailedMsg))
    {
      if password == "" || data == "" {
        decryptError := NeedPasswordMsg;
        return;
      }
      decryptError := "";
      importPreview := None;
      match outcome
      case Decrypted(vodSources) =>
        if vodSources.Some? && |vodSources.value| > 0 {
          importPreview := vodSources;
        } else {
          decryptError := NoVodSourcesMsg;
        }
      case DecryptThrew(message) =>
        decryptError := message.GetOr(DecryptFailedMsg);
    }

    /**
      handleConfirmEncryptedImport: on a 200 answer the preview replaces the
      list, its first key becomes the selection and the dialog is reset.
     */
    method ConfirmImport(reply: ServerReply)
      modifies this
      ensures editing == old(editing) && addMode == old(addMode) && form == old(form)
      ensures old(importPreview).None? || old(importPreview).value == [] ==>
                sources == old(sources) && selectedKey == old(selectedKey) && toast == old(toast)
                && importPreview == old(importPreview) && decryptError == old(decryptError) && importOpen == old(importOpen)
      ensures old(importPreview).Some? && old(importPreview).value != [] ==>
                var preview := old(importPreview).value;
                if reply.Replied? && reply.code == 200 then
                  sources == preview && selectedKey == preview[0].key
                  && toast == Some(Toast(ImportedMsg(|preview|), Success))
                  && importPreview.None? && decryptError == "" && !importOpen
                else
                  sources == old(sources) && selectedKey == old(selectedKey)
                  && importPreview == old(importPreview) && decryptError == old(decryptError) && importOpen == old(importOpen)
                  && toast == Some(Toast(if reply.Replied? then ReplyMessage(reply, ImportFailedMsg) else ImportErrorMsg, Failure))
    {
      if importPreview.None? || |importPreview.value| == 0 {
        return;
      }
      var preview := importPreview.value;
      if reply.RequestFailed? {
        toast := Some(Toast(ImportErrorMsg, Failure));
        return;
      }
      if reply.code != 200 {
        toast := Some(Toast(ReplyMessage(reply, ImportFailedMsg), Failure));
        return;
      }
      sources := preview;
      selectedKey := preview[0].key;
      toast := Some(Toast(ImportedMsg(|preview|), Success));
      importOpen := false;
      importPreview := None;
      decryptError := "";
    }
  }

  /** `editingSource?.key` */
  function KeyOf(editing: Option<VodSource>): Option<string> {
    if editing.Some? then Some(editing.value.key) else None
  }
}
