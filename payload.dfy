/** The JSON body the wizard posts to `POST /api/user/profile` and the server
    destructures from `req.body`. */
module Payload {
  import opened Options

  /** One entry of `formData.skills`: `{ skill, type }`. */
  datatype Skill = Skill(skill: string, kind: string)

  /** `req.body`. A field the body does not carry is `None`; values of the wrong
      JSON type are not modelled. */
  datatype ProfileRequest = ProfileRequest(
    email: Option<string>,
    firstName: Option<string>,
    lastName: Option<string>,
    classYear: Option<string>,
    interests: Option<seq<string>>,
    skills: Option<seq<Skill>>,
    goals: Option<seq<string>>)
}
