/** The course tree shown by the course explorer (the interfaces of
    src/components/course/courseData.ts). The static sample data itself is
    not part of this model. */
module CourseData {
  /** `Slide`. `kind` is its `type` field: one of `pdf`, `text`, `code`,
      `youtube`, `html`, `assessment`, `document`, `video` in the sample
      data, kept as a string because the detail view has a branch for any
      other value. */
  datatype CourseSlide = CourseSlide(id: string, name: string, kind: string)

  /** `Chapter`. */
  datatype Chapter = Chapter(id: string, name: string, slides: seq<CourseSlide>)

  /** `Module`. */
  datatype CourseModule = CourseModule(id: string, name: string, chapters: seq<Chapter>)

  /** `Subject`. */
  datatype Subject = Subject(id: string, name: string, modules: seq<CourseModule>)
}
