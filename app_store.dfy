/** The application's persisted collections, held in memory. Every service
    loads a whole collection, changes it and writes it back; here that is one
    assignment to the corresponding field. */
module AppStore {
  import opened Wrappers
  import opened Types

  class Store {
    var users: seq<User>
    var technicians: seq<Technician>
    var jobs: seq<Job>
    var ratings: seq<Rating>
    /** The signed-in user, or `None` when nobody is. */
    var currentUser: Option<User>
    /** Passwords by e-mail address, kept apart from the user records. */
    var passwords: map<string, string>

    /** An empty store: every collection loads as its empty default. */
    constructor ()
      ensures users == [] && technicians == [] && jobs == [] && ratings == []
      ensures currentUser == None && passwords == map[]
    {
      users, technicians, jobs, ratings := [], [], [], [];
      currentUser, passwords := None, map[];
    }
  }
}
