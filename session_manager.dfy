/** The in-memory session table (backend/core/session_manager.py): a map
    from dataset id to a mutable session record. Each record is an object,
    as the dictionary `get_session` hands out is the stored one itself. */
module SessionManager {
  import opened Wrappers

  /** One session: `{"original_path": ..., "cleaned_path": ...}`. */
  class Session {
    var originalPath: string
    var cleanedPath: Option<string>

    constructor (originalPath: string)
      ensures this.originalPath == originalPath && cleanedPath.None?
    {
      this.originalPath := originalPath;
      cleanedPath := None;
    }
  }

  /** The contents of a session, as a value. */
  datatype SessionRecord = SessionRecord(originalPath: string, cleanedPath: Option<string>)

  /** The module-level `sessions` dictionary. */
  class SessionStore {
    var sessions: map<string, Session>

    /** Every id has its own record: no two ids share one, as each record is
        created fresh by `create_session`. */
    predicate Valid()
      reads this
    {
      forall a, b :: a in sessions && b in sessions && a != b ==> sessions[a] != sessions[b]
    }

    /** The table as values. */
    function View(): map<string, SessionRecord>
      reads this, sessions.Values
    {
      map id | id in sessions :: SessionRecord(sessions[id].originalPath, sessions[id].cleanedPath)
    }

    /** `sessions = {}`. */
    constructor ()
      ensures Valid() && sessions == map[]
    {
      sessions := map[];
    }

    /** `create_session(dataset_id, original_path)`: a new record with no
        cleaned path, replacing any record the id had; other ids keep
        theirs. */
    method CreateSession(datasetId: string, originalPath: string)
      requires Valid()
      modifies this
      ensures Valid()
      ensures View() == old(View())[datasetId := SessionRecord(originalPath, None)]
      ensures sessions.Keys == old(sessions).Keys + {datasetId}
      ensures fresh(sessions[datasetId])
      ensures forall id :: id in old(sessions) && id != datasetId ==> sessions[id] == old(sessions[id])
    {
      var s := new Session(originalPath);
      sessions := sessions[datasetId := s];
    }

    /** `get_session(dataset_id)`: the stored record itself, or None for an
        unknown id. */
    method GetSession(datasetId: string) returns (s: Option<Session>)
      ensures s.None? <==> datasetId !in sessions
      ensures s.Some? ==> s.value == sessions[datasetId]
      ensures s.Some? ==> SessionRecord(s.value.originalPath, s.value.cleanedPath) == View()[datasetId]
    {
      if datasetId in sessions {
        s := Some(sessions[datasetId]);
      } else {
        s := None;
      }
    }

    /** `set_cleaned_path(dataset_id, cleaned_path)`: only the cleaned path of
        a known id changes; an unknown id is ignored and no session is
        created. */
    method SetCleanedPath(datasetId: string, cleanedPath: string)
      requires Valid()
      modifies if datasetId in sessions then {sessions[datasetId]} else {}
      ensures Valid() && sessions == old(sessions)
      ensures datasetId in old(View()) ==>
                View() == old(View())[datasetId := old(View())[datasetId].(cleanedPath := Some(cleanedPath))]
      ensures datasetId !in old(View()) ==> View() == old(View())
    {
      if datasetId in sessions {
        sessions[datasetId].cleanedPath := Some(cleanedPath);
      }
    }
  }
}
