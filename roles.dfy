/** How the role names of the separate pages fit together: the roles one
    can register with, the roles the login page routes, the roles that may
    upload or retrieve documents, and the session the login page stores
    and the dashboard's logout removes. */
module RoleConsistency {
  import opened Common
  import Register
  import LoginPage
  import DocumentUpload
  import DocumentRetriever
  import LawyerDashboard

  /** Of the roles one can register with, the login page routes all but
      `forensic_expert`: its route is spelled for a role `foreinsic`, which
      registration never offers. */
  lemma RegisteredRolesAtLogin(role: string)
    requires role in Register.RoleNames()
    ensures LoginPage.RouteFor(role).Some? <==> role != "forensic_expert"
    ensures "foreinsic" !in Register.RoleNames() && LoginPage.RouteFor("foreinsic").Some?
  {
    Register.RolesTable();
  }

  /** Of the roles one can register with, exactly the lawyer and the
      forensic expert may upload case documents, and only the judge may
      list them. */
  lemma RegisteredRolePermissions(role: string)
    requires role in Register.RoleNames()
    ensures DocumentUpload.CanUpload(role) <==> role == "lawyer" || role == "forensic_expert"
    ensures DocumentRetriever.CanRetrieve(role) <==> role == "judge"
    ensures !(DocumentUpload.CanUpload(role) && DocumentRetriever.CanRetrieve(role))
  {
    Register.RolesTable();
  }

  /** Logging out after a login leaves storage as logging out alone would:
      none of the three keys the login stored survives, and every other key
      keeps its value from before the login. */
  lemma LogoutUndoesLogin(storage: Storage, token: string, role: string, email: string)
    ensures storage["token" := token]["role" := role]["email" := email] - LawyerDashboard.SessionKeys
         == storage - LawyerDashboard.SessionKeys
  {
    var keys := LawyerDashboard.SessionKeys;
    var logged := storage["token" := token]["role" := role]["email" := email];
    assert (logged - keys).Keys == (storage - keys).Keys;
    forall k | k in (logged - keys)
      ensures (logged - keys)[k] == (storage - keys)[k]
    {
      assert k !in keys;
    }
  }
}
