/** The learning-resource wrappers: the multipart field list that `createResource` and
    `updateResource` fill from a `ResourceForm`. */
module ResourceApi {
  import opened JsValues
  import opened Decimal
  import opened KeyValues
  import opened Http

  datatype ResourceType = Pdf | Link | FileType | Video

  function TypeName(t: ResourceType): string
  {
    match t
    case Pdf => "pdf"
    case Link => "link"
    case FileType => "file"
    case Video => "video"
  }

  /** An uploaded file; a `File` object is always truthy. */
  datatype Upload = Upload(name: string, content: seq<bv8>)

  /** A multipart field value: text, or a file part. */
  datatype FormValue = Text(text: string) | FilePart(upload: Upload)

  datatype ResourceForm = ResourceForm(
    title: string,
    description: Option<string>,
    kind: ResourceType,
    url: Option<string>,
    file: Nullable<Upload>,
    courseId: Option<int>,
    moduleId: Option<int>,
    videoId: Option<int>)

  /** Text of an optional number when truthy; the empty string stands in when it is not
      written. */
  function IdText(v: Option<int>): string
  {
    if v.Some? then IntToString(v.value) else ""
  }

  /** Each append with the condition under which it is made. */
  function TitleField(data: ResourceForm): Candidate<FormValue>
  {
    Candidate(true, "title", Text(data.title))
  }

  function DescriptionField(data: ResourceForm): Candidate<FormValue>
  {
    Candidate(TruthyString(data.description), "description",
              Text(if data.description.Some? then data.description.value else ""))
  }

  function TypeField(data: ResourceForm): Candidate<FormValue>
  {
    Candidate(true, "type", Text(TypeName(data.kind)))
  }

  function UrlField(data: ResourceForm): Candidate<FormValue>
  {
    Candidate(TruthyString(data.url), "url", Text(if data.url.Some? then data.url.value else ""))
  }

  function FileField(data: ResourceForm): Candidate<FormValue>
  {
    Candidate(data.file.Present?, "file", if data.file.Present? then FilePart(data.file.value) else Text(""))
  }

  function CourseField(data: ResourceForm): Candidate<FormValue>
  {
    Candidate(TruthyNumber(data.courseId), "course_id", Text(IdText(data.courseId)))
  }

  function ModuleField(data: ResourceForm): Candidate<FormValue>
  {
    Candidate(TruthyNumber(data.moduleId), "module_id", Text(IdText(data.moduleId)))
  }

  function VideoField(data: ResourceForm): Candidate<FormValue>
  {
    Candidate(TruthyNumber(data.videoId), "video_id", Text(IdText(data.videoId)))
  }

  /** The eight appends in source order. */
  function ResourceCandidates(data: ResourceForm): (cs: seq<Candidate<FormValue>>)
    ensures |cs| == 8
  {
    [TitleField(data), DescriptionField(data), TypeField(data), UrlField(data),
     FileField(data), CourseField(data), ModuleField(data), VideoField(data)]
  }

  /** The field names in the order they are appended. */
  const FieldOrder: seq<string> :=
    ["title", "description", "type", "url", "file", "course_id", "module_id", "video_id"]

  lemma FieldOrderDistinct()
    ensures forall a, b :: 0 <= a < b < |FieldOrder| ==> FieldOrder[a] != FieldOrder[b]
  {
  }

  /** The candidates carry the field names in append order, so no two share a name. */
  lemma CandidateKeysInOrder(data: ResourceForm)
    ensures CandidateKeys(ResourceCandidates(data)) == FieldOrder
    ensures forall a, b :: 0 <= a < b < 8 ==> ResourceCandidates(data)[a].key != ResourceCandidates(data)[b].key
  {
    var ks := CandidateKeys(ResourceCandidates(data));
    assert ks == FieldOrder;
    FieldOrderDistinct();
  }

  /** The field list of a resource form. */
  function ResourceFields(data: ResourceForm): seq<Entry<FormValue>>
  {
    Appended(ResourceCandidates(data))
  }

  /** `title` and `type` are always sent; the others only when truthy, numbers as decimal text. */
  lemma ResourceFieldValues(data: ResourceForm)
    ensures Lookup(ResourceFields(data), "title") == Some(Text(data.title))
    ensures Lookup(ResourceFields(data), "type") == Some(Text(TypeName(data.kind)))
    ensures Lookup(ResourceFields(data), "description") ==
      if TruthyString(data.description) then Some(Text(data.description.value)) else None
    ensures Lookup(ResourceFields(data), "url") ==
      if TruthyString(data.url) then Some(Text(data.url.value)) else None
    ensures Lookup(ResourceFields(data), "file") ==
      if data.file.Present? then Some(FilePart(data.file.value)) else None
  {
    var cs := ResourceCandidates(data);
    CandidateKeysInOrder(data);
    AppendedLookup(cs, 0);
    AppendedLookup(cs, 1);
    AppendedLookup(cs, 2);
    AppendedLookup(cs, 3);
    AppendedLookup(cs, 4);
  }

  /** The three ids are sent only when non-zero, as decimal text. */
  lemma ResourceIdValues(data: ResourceForm)
    ensures Lookup(ResourceFields(data), "course_id") ==
      if TruthyNumber(data.courseId) then Some(Text(IntToString(data.courseId.value))) else None
    ensures Lookup(ResourceFields(data), "module_id") ==
      if TruthyNumber(data.moduleId) then Some(Text(IntToString(data.moduleId.value))) else None
    ensures Lookup(ResourceFields(data), "video_id") ==
      if TruthyNumber(data.videoId) then Some(Text(IntToString(data.videoId.value))) else None
  {
    var cs := ResourceCandidates(data);
    CandidateKeysInOrder(data);
    AppendedLookup(cs, 5);
    AppendedLookup(cs, 6);
    AppendedLookup(cs, 7);
  }


  /** Fields follow the append order and no name is sent twice. */
  lemma ResourceFieldOrder(data: ResourceForm)
    ensures IsSubsequence(Keys(ResourceFields(data)), FieldOrder)
    ensures DistinctKeys(ResourceFields(data))
  {
    CandidateKeysInOrder(data);
    AppendedKeys(ResourceCandidates(data));
    AppendedDistinct(ResourceCandidates(data));
  }

  /** The `new FormData()` / `append` sequence shared by both wrappers. */
  method BuildFormData(data: ResourceForm) returns (fields: seq<Entry<FormValue>>)
    ensures fields == ResourceFields(data)
  {
    var formData := new EntryList<FormValue>();
    formData.Append("title", Text(data.title));
    assert formData.entries == FieldOf(TitleField(data));
    formData.AppendWhen(DescriptionField(data));
    formData.Append("type", Text(TypeName(data.kind)));
    assert [Entry("type", Text(TypeName(data.kind)))] == FieldOf(TypeField(data));
    formData.AppendWhen(UrlField(data));
    formData.AppendWhen(FileField(data));
    formData.AppendWhen(CourseField(data));
    formData.AppendWhen(ModuleField(data));
    formData.AppendWhen(VideoField(data));
    fields := formData.entries;
    AppendedEight(TitleField(data), DescriptionField(data), TypeField(data), UrlField(data),
                  FileField(data), CourseField(data), ModuleField(data), VideoField(data));
  }

  /** `createResource`: POST of the field list to `/resources`. */
  method CreateResource(data: ResourceForm) returns (request: Request<seq<Entry<FormValue>>>)
    ensures request == Request(Post, "/resources", ResourceFields(data))
  {
    var formData := BuildFormData(data);
    request := Request(Post, "/resources", formData);
  }

  /** `updateResource`: PUT of the same field list to `/resources/<id>`. */
  method UpdateResource(id: int, data: ResourceForm) returns (request: Request<seq<Entry<FormValue>>>)
    ensures request == Request(Put, "/resources/" + IntToString(id), ResourceFields(data))
  {
    var formData := BuildFormData(data);
    request := Request(Put, "/resources/" + IntToString(id), formData);
  }

  /** A zero id and an empty description are left out; `title` and `type` still go. */
  lemma MinimalForm(title: string)
    ensures ResourceFields(ResourceForm(title, Some(""), Link, None, Null, Some(0), None, None))
         == [Entry("title", Text(title)), Entry("type", Text("link"))]
  {
    var data := ResourceForm(title, Some(""), Link, None, Null, Some(0), None, None);
    AppendedEight(TitleField(data), DescriptionField(data), TypeField(data), UrlField(data),
                  FileField(data), CourseField(data), ModuleField(data), VideoField(data));
    assert FieldOf(TitleField(data)) + FieldOf(DescriptionField(data)) + FieldOf(TypeField(data))
        == [Entry("title", Text(title)), Entry("type", Text("link"))];
  }
}
