/** The records of the jobs app. */
module JobModels {

  /** A Job row: the company that posted it and its many-to-many set of
      JobType names. `title` stands for the posted content. */
  datatype Job = Job(id: int, company: int, title: string, jobTypes: set<string>)
}
